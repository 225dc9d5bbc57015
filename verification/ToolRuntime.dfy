/** `ToolRuntime.execute` of src/m2harness/application/tools.py for one idempotency key, called by any number of
    threads in any number of processes that share the store. A step is one look at the process cache and the
    store, one reservation, one run of the handler, one cache write, or one completion; a process may die between
    any two of them and loses its cache. Everything the program does addresses one key at a time, so keys do not
    interact. */
module ToolRuntime {
  import opened Wrappers
  import opened ToolStore

  /** A call in a process. */
  datatype Thread = Thread(process: string, id: string)

  datatype Pc =
    | Idle
    | Looked
    | Holding(token: string)
    | Ran(token: string, result: ToolResult)
    | Completing(token: string, result: ToolResult)

  /** A successful reservation, and a result given back to a caller with where it came from. */
  datatype Grant = Grant(token: string, started: int)
  datatype Source = FromCache | FromStore | Own
  datatype Answer = Answer(result: ToolResult, source: Source)

  /** The row of the key, the process caches, the threads, and history: reservations granted, handler runs by
      token, and recorded results given back. */
  datatype System = System(
    row: Option<Run>, caches: map<string, ToolResult>, threads: map<Thread, Pc>,
    grants: seq<Grant>, runs: seq<string>, answers: seq<Answer>)

  const FRESH := System(None, map[], map[], [], [], [])

  function PcOf(sys: System, th: Thread): Pc {
    if th in sys.threads then sys.threads[th] else Idle
  }

  function Goto(sys: System, th: Thread, pc: Pc): System {
    sys.(threads := sys.threads[th := pc])
  }

  datatype Action =
    | ActLook(th: Thread)
    | ActReserve(th: Thread, now: int, token: string)
    | ActRun(th: Thread, result: ToolResult)
    | ActRefuse(th: Thread, result: ToolResult)
    | ActCache(th: Thread)
    | ActComplete(th: Thread, storeFails: bool)
    | ActDie(process: string)

  predicate Used(sys: System, token: string) {
    exists g | g in sys.grants :: g.token == token
  }

  /** The cache first, then the store. */
  function DoLook(sys: System, th: Thread): System {
    if th.process in sys.caches then sys.(answers := sys.answers + [Answer(sys.caches[th.process], FromCache)])
    else if sys.row.Some? && sys.row.value.Done? then sys.(answers := sys.answers + [Answer(sys.row.value.result, FromStore)])
    else Goto(sys, th, Looked)
  }

  /** `reserve` with a token that uuid4 draws fresh. */
  function DoReserve(seconds: int, sys: System, th: Thread, now: int, token: string): System {
    if Used(sys, token) then sys
    else
      match Reserved(sys.row, now, seconds, token)
      case None => Goto(sys, th, Idle)
      case Some(row) => Goto(sys, th, Holding(token)).(row := Some(row), grants := sys.grants + [Grant(token, now)])
  }

  /** `complete`; if it raises, the process drops its cached result. */
  function DoComplete(sys: System, th: Thread, token: string, result: ToolResult, storeFails: bool): System {
    if !storeFails && Completes(sys.row, Some(token)) then
      Goto(sys, th, Idle).(row := Some(Done(result)), answers := sys.answers + [Answer(result, Own)])
    else
      Goto(sys, th, Idle).(caches := sys.caches - {th.process})
  }

  function DoDie(sys: System, process: string): System {
    sys.(caches := sys.caches - {process},
         threads := map th | th in sys.threads && th.process != process :: sys.threads[th])
  }

  function Next(seconds: int, sys: System, a: Action): System {
    match a
    case ActLook(th) => if PcOf(sys, th).Idle? then DoLook(sys, th) else sys
    case ActReserve(th, now, token) => if PcOf(sys, th).Looked? then DoReserve(seconds, sys, th, now, token) else sys
    case ActRun(th, result) =>
      (match PcOf(sys, th)
       case Holding(token) => Goto(sys, th, Ran(token, result)).(runs := sys.runs + [token])
       case _ => sys)
    case ActRefuse(th, result) =>
      (match PcOf(sys, th)
       case Holding(token) => Goto(sys, th, Ran(token, result))
       case _ => sys)
    case ActCache(th) =>
      (match PcOf(sys, th)
       case Ran(token, result) => Goto(sys, th, Completing(token, result)).(caches := sys.caches[th.process := result])
       case _ => sys)
    case ActComplete(th, storeFails) =>
      (match PcOf(sys, th)
       case Completing(token, result) => DoComplete(sys, th, token, result, storeFails)
       case _ => sys)
    case ActDie(process) => DoDie(sys, process)
  }

  function RunAll(seconds: int, actions: seq<Action>): System
    decreases |actions|
  {
    if actions == [] then FRESH
    else Next(seconds, RunAll(seconds, actions[..|actions| - 1]), actions[|actions| - 1])
  }

  // ---------- tokens and runs ----------

  function TokenOf(pc: Pc): Option<string> {
    match pc
    case Idle => None
    case Looked => None
    case Holding(token) => Some(token)
    case Ran(token, _) => Some(token)
    case Completing(token, _) => Some(token)
  }

  ghost predicate ThreadsSound(sys: System) {
    && (forall th | th in sys.threads :: TokenOf(sys.threads[th]).Some? ==> Used(sys, TokenOf(sys.threads[th]).value))
    && (forall x, y | x in sys.threads && y in sys.threads && x != y && TokenOf(sys.threads[x]).Some? ::
          TokenOf(sys.threads[x]) != TokenOf(sys.threads[y]))
    && (forall th | th in sys.threads && sys.threads[th].Holding? :: sys.threads[th].token !in sys.runs)
  }

  ghost predicate RunsSound(sys: System) {
    && (forall i, j | 0 <= i < j < |sys.runs| :: sys.runs[i] != sys.runs[j])
    && (forall token | token in sys.runs :: Used(sys, token))
  }

  /** Reservations follow each other by more than the lease, and the row carries the newest. */
  ghost predicate GrantsSound(seconds: int, sys: System) {
    && (forall i | 0 <= i < |sys.grants| - 1 :: sys.grants[i].started + Lease(seconds) < sys.grants[i + 1].started)
    && (forall i, j | 0 <= i < j < |sys.grants| :: sys.grants[i].token != sys.grants[j].token)
    && (sys.row.None? <==> sys.grants == [])
    && (sys.row.Some? && sys.row.value.Running? ==>
          var last := sys.grants[|sys.grants| - 1];
          sys.row.value == Running(last.started, last.token))
  }

  ghost predicate TokensInv(seconds: int, sys: System) {
    ThreadsSound(sys) && RunsSound(sys) && GrantsSound(seconds, sys)
  }

  lemma ReserveKeepsGrants(seconds: int, sys: System, th: Thread, now: int, token: string)
    requires GrantsSound(seconds, sys)
    ensures GrantsSound(seconds, DoReserve(seconds, sys, th, now, token))
  {
    var next := DoReserve(seconds, sys, th, now, token);
    if next.grants != sys.grants {
      forall i | 0 <= i < |sys.grants| ensures sys.grants[i].token != token {
        assert sys.grants[i] in sys.grants;
      }
    }
  }

  lemma ReserveKeepsTokens(seconds: int, sys: System, th: Thread, now: int, token: string)
    requires TokensInv(seconds, sys) && PcOf(sys, th).Looked?
    ensures TokensInv(seconds, DoReserve(seconds, sys, th, now, token))
  {
    ReserveKeepsGrants(seconds, sys, th, now, token);
    var next := DoReserve(seconds, sys, th, now, token);
    if next.grants != sys.grants {
      var g := Grant(token, now);
      assert next.grants == sys.grants + [g] && g in next.grants;
      forall earlier | Used(sys, earlier) ensures Used(next, earlier) && earlier != token {
      }
    }
  }

  /** No reservation, no run; threads keep or drop their token, and the row stays or is completed. */
  ghost predicate QuietTokens(sys: System, next: System) {
    && next.grants == sys.grants && next.runs == sys.runs
    && (next.row == sys.row || (sys.row.Some? && next.row.Some? && next.row.value.Done?))
    && (forall th | th in next.threads :: TokenOf(next.threads[th]) == None
          || (th in sys.threads && TokenOf(next.threads[th]) == TokenOf(sys.threads[th])
              && (next.threads[th].Holding? ==> sys.threads[th].Holding?)))
  }

  lemma QuietKeepsTokens(seconds: int, sys: System, next: System)
    requires TokensInv(seconds, sys) && QuietTokens(sys, next)
    ensures TokensInv(seconds, next)
  {
    forall token ensures Used(next, token) == Used(sys, token) {
    }
  }

  lemma OtherIsQuiet(seconds: int, sys: System, a: Action)
    requires !a.ActReserve? && !a.ActRun?
    ensures QuietTokens(sys, Next(seconds, sys, a))
  {
  }

  lemma OtherKeepsTokens(seconds: int, sys: System, a: Action)
    requires TokensInv(seconds, sys) && !a.ActReserve? && !a.ActRun?
    ensures TokensInv(seconds, Next(seconds, sys, a))
  {
    OtherIsQuiet(seconds, sys, a);
    QuietKeepsTokens(seconds, sys, Next(seconds, sys, a));
  }

  lemma RunKeepsTokens(seconds: int, sys: System, a: Action)
    requires TokensInv(seconds, sys) && a.ActRun?
    ensures TokensInv(seconds, Next(seconds, sys, a))
  {
    var next := Next(seconds, sys, a);
    assert next.grants == sys.grants;
    forall token ensures Used(next, token) == Used(sys, token) {
    }
  }

  lemma {:induction false} EveryRunKeepsTokens(seconds: int, actions: seq<Action>)
    ensures TokensInv(seconds, RunAll(seconds, actions))
    decreases |actions|
  {
    if actions != [] {
      var sys, a := RunAll(seconds, actions[..|actions| - 1]), actions[|actions| - 1];
      EveryRunKeepsTokens(seconds, actions[..|actions| - 1]);
      if a.ActReserve? {
        if PcOf(sys, a.th).Looked? { ReserveKeepsTokens(seconds, sys, a.th, a.now, a.token); }
      } else if a.ActRun? {
        RunKeepsTokens(seconds, sys, a);
      } else {
        OtherKeepsTokens(seconds, sys, a);
      }
    }
  }

  // ---------- agreement ----------

  /** The result on record, if the key is completed. */
  function OnRecord(sys: System): Option<ToolResult> {
    if sys.row.Some? && sys.row.value.Done? then Some(sys.row.value.result) else None
  }

  /** Some thread of this process wrote this result to the cache and has not completed it yet. */
  ghost predicate InWindow(sys: System, process: string, result: ToolResult) {
    exists th | th in sys.threads :: th.process == process && sys.threads[th].Completing? && sys.threads[th].result == result
  }

  ghost predicate CachesSound(sys: System) {
    forall p | p in sys.caches :: OnRecord(sys) == Some(sys.caches[p]) || InWindow(sys, p, sys.caches[p])
  }

  ghost predicate AnswersAgree(sys: System) {
    forall a | a in sys.answers && !a.source.FromCache? :: OnRecord(sys) == Some(a.result)
  }

  /** A completed row is final. */
  lemma RecordIsFinal(seconds: int, sys: System, a: Action)
    requires OnRecord(sys).Some?
    ensures Next(seconds, sys, a).row == sys.row && Next(seconds, sys, a).grants == sys.grants
  {
  }

  lemma WindowStays(seconds: int, sys: System, a: Action, p: string, result: ToolResult)
    requires InWindow(sys, p, result) && !a.ActComplete? && a != ActDie(p)
    ensures InWindow(Next(seconds, sys, a), p, result)
  {
    var th :| th in sys.threads && th.process == p && sys.threads[th].Completing? && sys.threads[th].result == result;
    var next := Next(seconds, sys, a);
    assert th in next.threads && next.threads[th] == sys.threads[th];
  }

  lemma CompleteKeepsCaches(sys: System, th: Thread, storeFails: bool)
    requires CachesSound(sys) && PcOf(sys, th).Completing?
    ensures var pc := PcOf(sys, th); CachesSound(DoComplete(sys, th, pc.token, pc.result, storeFails))
  {
    var pc := PcOf(sys, th);
    var next := DoComplete(sys, th, pc.token, pc.result, storeFails);
    forall p | p in next.caches ensures OnRecord(next) == Some(next.caches[p]) || InWindow(next, p, next.caches[p]) {
      if OnRecord(sys) != Some(sys.caches[p]) {
        var x :| x in sys.threads && x.process == p && sys.threads[x].Completing? && sys.threads[x].result == sys.caches[p];
        if x != th {
          assert x in next.threads && next.threads[x] == sys.threads[x];
        }
      }
    }
  }

  lemma NextKeepsCaches(seconds: int, sys: System, a: Action)
    requires CachesSound(sys)
    ensures CachesSound(Next(seconds, sys, a))
  {
    var next := Next(seconds, sys, a);
    if a.ActComplete? {
      if PcOf(sys, a.th).Completing? { CompleteKeepsCaches(sys, a.th, a.storeFails); }
    } else {
      forall p | p in next.caches ensures OnRecord(next) == Some(next.caches[p]) || InWindow(next, p, next.caches[p]) {
        if a.ActCache? && PcOf(sys, a.th).Ran? && a.th.process == p {
          assert a.th in next.threads;
        } else if OnRecord(sys) == Some(sys.caches[p]) {
          RecordIsFinal(seconds, sys, a);
        } else {
          WindowStays(seconds, sys, a, p, sys.caches[p]);
        }
      }
    }
  }

  lemma NextKeepsAnswers(seconds: int, sys: System, a: Action)
    requires AnswersAgree(sys)
    ensures AnswersAgree(Next(seconds, sys, a))
  {
    if OnRecord(sys).Some? {
      RecordIsFinal(seconds, sys, a);
    }
  }

  lemma {:induction false} EveryRunAgrees(seconds: int, actions: seq<Action>)
    ensures CachesSound(RunAll(seconds, actions)) && AnswersAgree(RunAll(seconds, actions))
    decreases |actions|
  {
    if actions != [] {
      var sys, a := RunAll(seconds, actions[..|actions| - 1]), actions[|actions| - 1];
      EveryRunAgrees(seconds, actions[..|actions| - 1]);
      NextKeepsCaches(seconds, sys, a);
      NextKeepsAnswers(seconds, sys, a);
    }
  }

  // ---------- main results ----------

  /** A sequence without repetitions over a finite set is no longer than the set. */
  lemma {:induction false} DistinctBound(s: seq<string>, t: set<string>)
    requires forall i, j | 0 <= i < j < |s| :: s[i] != s[j]
    requires forall x | x in s :: x in t
    ensures |s| <= |t|
    decreases |s|
  {
    if s != [] {
      var rest := s[1..];
      forall x | x in rest ensures x in t - {s[0]} {
        var i :| 0 <= i < |rest| && rest[i] == x;
        assert s[i + 1] == x;
      }
      DistinctBound(rest, t - {s[0]});
    }
  }

  function Tokens(grants: seq<Grant>): (r: set<string>)
    ensures |r| <= |grants|
    ensures forall g | g in grants :: g.token in r
    decreases |grants|
  {
    if grants == [] then {} else Tokens(grants[..|grants| - 1]) + {grants[|grants| - 1].token}
  }

  /** The handler runs at most once per reservation, and each reservation after the first took over one whose
      lease had run out: over a span of time shorter than the lease the handler runs at most once. */
  lemma HandlerRunsAreBounded(seconds: int, actions: seq<Action>)
    ensures var sys := RunAll(seconds, actions);
      && |sys.runs| <= |sys.grants|
      && (sys.grants != [] ==>
            (|sys.grants| - 1) * (1_000_000 * Max(1, seconds) + 1) <= sys.grants[|sys.grants| - 1].started - sys.grants[0].started)
  {
    EveryRunKeepsTokens(seconds, actions);
    var sys := RunAll(seconds, actions);
    DistinctBound(sys.runs, Tokens(sys.grants));
    if sys.grants != [] {
      GrantsSpread(seconds, sys.grants);
    }
  }

  lemma {:induction false} GrantsSpread(seconds: int, grants: seq<Grant>)
    requires grants != []
    requires forall i | 0 <= i < |grants| - 1 :: grants[i].started + Lease(seconds) < grants[i + 1].started
    ensures (|grants| - 1) * (Lease(seconds) + 1) <= grants[|grants| - 1].started - grants[0].started
    decreases |grants|
  {
    if |grants| > 1 {
      var n := |grants| - 1;
      GrantsSpread(seconds, grants[..n]);
      assert grants[n - 1].started + Lease(seconds) < grants[n].started;
      assert n * (Lease(seconds) + 1) == (n - 1) * (Lease(seconds) + 1) + (Lease(seconds) + 1);
    }
  }

  /** Only the newest reservation completes the row, and a row once completed stays as it is for ever. */
  lemma OnlyNewestTokenCompletes(seconds: int, actions: seq<Action>, a: Action)
    requires OnRecord(RunAll(seconds, actions)).None? && OnRecord(Next(seconds, RunAll(seconds, actions), a)).Some?
    ensures var sys := RunAll(seconds, actions);
      a.ActComplete? && sys.grants != []
      && PcOf(sys, a.th) == Completing(sys.grants[|sys.grants| - 1].token, OnRecord(Next(seconds, sys, a)).value)
  {
    EveryRunKeepsTokens(seconds, actions);
    var sys := RunAll(seconds, actions);
    CompletionRecords(seconds, sys, a);
    assert GrantsSound(seconds, sys);
  }

  /** Only a completion with the row's own token puts a result on record. */
  lemma CompletionRecords(seconds: int, sys: System, a: Action)
    requires OnRecord(sys).None? && OnRecord(Next(seconds, sys, a)).Some?
    ensures a.ActComplete? && sys.row.Some? && sys.row.value.Running?
    ensures PcOf(sys, a.th) == Completing(sys.row.value.token, OnRecord(Next(seconds, sys, a)).value)
  {
  }

  lemma {:induction false} CompletedForever(seconds: int, actions: seq<Action>, more: seq<Action>)
    requires OnRecord(RunAll(seconds, actions)).Some?
    ensures var sys, later := RunAll(seconds, actions), RunAll(seconds, actions + more);
      later.row == sys.row && later.grants == sys.grants
    decreases |more|
  {
    if more == [] {
      assert actions + more == actions;
    } else {
      var n := |more| - 1;
      CompletedForever(seconds, actions, more[..n]);
      assert (actions + more)[..|actions + more| - 1] == actions + more[..n];
      RecordIsFinal(seconds, RunAll(seconds, actions + more[..n]), more[n]);
    }
  }

  /** Every result read from the store, and every result a call completed itself, is the one on record; a result
      from a process cache is, too, unless one of that process's calls is just then between writing the cache and
      completing. */
  lemma RecordedResultsAgree(seconds: int, actions: seq<Action>, process: string)
    ensures var sys := RunAll(seconds, actions);
      && (forall a | a in sys.answers && !a.source.FromCache? :: OnRecord(sys) == Some(a.result))
      && (process in sys.caches ==>
            OnRecord(sys) == Some(sys.caches[process]) || InWindow(sys, process, sys.caches[process]))
  {
    EveryRunAgrees(seconds, actions);
  }

  // ---------- the window ----------

  /** Each cache write is completed at once, as if the two were one step. */
  ghost predicate NoWindow(actions: seq<Action>) {
    forall i | 0 <= i < |actions| && actions[i].ActCache? ::
      i + 1 < |actions| && actions[i + 1].ActComplete? && actions[i + 1].th == actions[i].th
  }

  /** Nobody is between cache write and completion. */
  ghost predicate Closed(sys: System) {
    && (forall th | th in sys.threads :: !sys.threads[th].Completing?)
    && (forall p | p in sys.caches :: OnRecord(sys) == Some(sys.caches[p]))
    && (forall a | a in sys.answers :: OnRecord(sys) == Some(a.result))
  }

  lemma StepKeepsClosed(seconds: int, sys: System, a: Action)
    requires Closed(sys) && !a.ActCache?
    ensures Closed(Next(seconds, sys, a))
  {
    if OnRecord(sys).Some? {
      RecordIsFinal(seconds, sys, a);
    }
  }

  lemma CacheAndComplete(seconds: int, sys: System, th: Thread, storeFails: bool)
    requires Closed(sys)
    ensures Closed(Next(seconds, Next(seconds, sys, ActCache(th)), ActComplete(th, storeFails)))
  {
    if PcOf(sys, th).Ran? {
      var s1 := Next(seconds, sys, ActCache(th));
      var next := Next(seconds, s1, ActComplete(th, storeFails));
      assert next.threads.Keys == sys.threads.Keys + {th};
    }
  }

  lemma {:induction false} ClosedAlways(seconds: int, actions: seq<Action>)
    requires NoWindow(actions)
    ensures Closed(RunAll(seconds, actions))
    decreases |actions|
  {
    if actions != [] {
      var n := |actions| - 1;
      if n > 0 && actions[n - 1].ActCache? {
        assert actions[..n][..n - 1] == actions[..n - 1];
        PrefixWithoutCache(actions, n - 1);
        ClosedAlways(seconds, actions[..n - 1]);
        CacheAndComplete(seconds, RunAll(seconds, actions[..n - 1]), actions[n].th, actions[n].storeFails);
        assert actions[n - 1] == ActCache(actions[n].th);
      } else {
        PrefixWithoutCache(actions, n);
        ClosedAlways(seconds, actions[..n]);
        StepKeepsClosed(seconds, RunAll(seconds, actions[..n]), actions[n]);
      }
    }
  }

  lemma PrefixWithoutCache(actions: seq<Action>, n: nat)
    requires NoWindow(actions) && n <= |actions| && (n > 0 ==> !actions[n - 1].ActCache?)
    ensures NoWindow(actions[..n])
  {
    var prefix := actions[..n];
    forall i | 0 <= i < |prefix| && prefix[i].ActCache?
      ensures i + 1 < |prefix| && prefix[i + 1].ActComplete? && prefix[i + 1].th == prefix[i].th
    {
      assert actions[i].ActCache?;
    }
  }

  /** With cache write and completion as one step, every recorded result ever given back, from whatever source and
      by whatever process, is the same one. */
  lemma AllAnswersAgree(seconds: int, actions: seq<Action>, i: nat, j: nat)
    requires NoWindow(actions) && i < |RunAll(seconds, actions).answers| && j < |RunAll(seconds, actions).answers|
    ensures RunAll(seconds, actions).answers[i].result == RunAll(seconds, actions).answers[j].result
  {
    ClosedAlways(seconds, actions);
    var sys := RunAll(seconds, actions);
    assert sys.answers[i] in sys.answers && sys.answers[j] in sys.answers;
  }

  // ---------- one reservation ----------

  const SUCCEEDED := ToolResult("", true, "")
  const FAILED := ToolResult("", false, "")

  /** All results given back are the same one. */
  ghost predicate Agree(sys: System) {
    forall a, b | a in sys.answers && b in sys.answers :: a.result == b.result
  }

  /** Nobody has had the handler's result yet. */
  ghost predicate Untold(sys: System) {
    && sys.answers == [] && sys.caches == map[] && OnRecord(sys).None?
    && (forall th | th in sys.threads :: !sys.threads[th].Completing?)
  }

  /** Whoever has a result, has this one. */
  ghost predicate Told(sys: System, r: ToolResult) {
    && (forall a | a in sys.answers :: a.result == r)
    && (forall p | p in sys.caches :: sys.caches[p] == r)
    && (forall th | th in sys.threads && sys.threads[th].Completing? :: sys.threads[th].result == r)
    && (OnRecord(sys).Some? ==> OnRecord(sys).value == r)
    && (forall th | th in sys.threads :: TokenOf(sys.threads[th]).Some? ==> sys.threads[th].Completing?)
    && sys.grants != []
  }

  /** With one token, one thread holds it. */
  lemma OneHolder(seconds: int, sys: System, x: Thread, y: Thread)
    requires TokensInv(seconds, sys) && |sys.grants| <= 1
    requires TokenOf(PcOf(sys, x)).Some? && TokenOf(PcOf(sys, y)).Some?
    ensures x == y
  {
  }

  lemma UntoldStep(seconds: int, sys: System, a: Action) returns (r: ToolResult)
    requires TokensInv(seconds, sys) && Untold(sys) && |sys.grants| <= 1
    ensures Untold(Next(seconds, sys, a)) || Told(Next(seconds, sys, a), r)
  {
    r := SUCCEEDED;
    if a.ActCache? && PcOf(sys, a.th).Ran? {
      r := PcOf(sys, a.th).result;
      var next := Next(seconds, sys, a);
      forall th | th in next.threads && TokenOf(next.threads[th]).Some? ensures th == a.th {
        OneHolder(seconds, sys, th, a.th);
      }
    }
  }

  lemma ToldStep(seconds: int, sys: System, a: Action, r: ToolResult)
    requires Told(sys, r) && |Next(seconds, sys, a).grants| <= 1
    ensures Told(Next(seconds, sys, a), r)
  {
  }

  lemma {:induction false} OneGrant(seconds: int, actions: seq<Action>) returns (r: ToolResult)
    requires |RunAll(seconds, actions).grants| <= 1
    ensures Untold(RunAll(seconds, actions)) || Told(RunAll(seconds, actions), r)
    decreases |actions|
  {
    r := SUCCEEDED;
    if actions != [] {
      var before := actions[..|actions| - 1];
      var sys := RunAll(seconds, before);
      r := OneGrant(seconds, before);
      EveryRunKeepsTokens(seconds, before);
      if Told(sys, r) {
        ToldStep(seconds, sys, actions[|actions| - 1], r);
      } else {
        r := UntoldStep(seconds, sys, actions[|actions| - 1]);
      }
    }
  }

  /** A disagreement takes a second reservation: with one, all results ever given back are the same, through crashes,
      failing stores and answers given in the window. */
  lemma OneReservationAgrees(seconds: int, actions: seq<Action>)
    requires |RunAll(seconds, actions).grants| <= 1
    ensures Agree(RunAll(seconds, actions))
  {
    var r := OneGrant(seconds, actions);
  }

  /** The clock readings of all attempts to reserve lie within a span of time. */
  ghost predicate Within(actions: seq<Action>, from: int, span: int) {
    forall a | a in actions && a.ActReserve? :: from <= a.now <= from + span
  }

  lemma {:induction false} GrantsWithin(seconds: int, actions: seq<Action>, from: int, span: int)
    requires Within(actions, from, span)
    ensures forall g | g in RunAll(seconds, actions).grants :: from <= g.started <= from + span
    decreases |actions|
  {
    if actions != [] {
      var n := |actions| - 1;
      assert actions[n] in actions;
      GrantsWithin(seconds, actions[..n], from, span);
    }
  }

  lemma TwoGrantsSpan(seconds: int, sys: System, from: int, span: int)
    requires GrantsSound(seconds, sys) && |sys.grants| > 1
    requires forall g | g in sys.grants :: from <= g.started <= from + span
    ensures span > Lease(seconds)
  {
    assert sys.grants[0] in sys.grants && sys.grants[1] in sys.grants;
  }

  /** Attempts within one lease get one reservation at most. */
  lemma SpanWithinLease(seconds: int, actions: seq<Action>, from: int, span: int)
    requires Within(actions, from, span) && span <= Lease(seconds)
    ensures |RunAll(seconds, actions).grants| <= 1
  {
    EveryRunKeepsTokens(seconds, actions);
    GrantsWithin(seconds, actions, from, span);
    if |RunAll(seconds, actions).grants| > 1 {
      TwoGrantsSpan(seconds, RunAll(seconds, actions), from, span);
    }
  }

  // ---------- what the window can do ----------

  /** States of runs whose attempts to reserve span just over a lease. */
  ghost predicate Reachable(seconds: int, from: int, sys: System) {
    exists actions :: Within(actions, from, Lease(seconds) + 1) && sys == RunAll(seconds, actions)
  }

  lemma Go(seconds: int, from: int, sys: System, a: Action) returns (next: System)
    requires Reachable(seconds, from, sys) && (a.ActReserve? ==> from <= a.now <= from + Lease(seconds) + 1)
    ensures Reachable(seconds, from, next) && next == Next(seconds, sys, a)
  {
    var actions :| Within(actions, from, Lease(seconds) + 1) && sys == RunAll(seconds, actions);
    next := Next(seconds, sys, a);
    assert (actions + [a])[..|actions|] == actions;
    assert next == RunAll(seconds, actions + [a]);
  }

  const SLOW := Thread("P", "1")
  const OTHER := Thread("P", "2")
  const FAST := Thread("Q", "1")

  /** Both hold a reservation: `SLOW` one that ran out, `FAST` the newest. */
  lemma TwoHolders(seconds: int, from: int) returns (sys: System)
    ensures Reachable(seconds, from, sys) && sys.caches == map[] && sys.answers == []
    ensures PcOf(sys, SLOW) == Holding("t1") && PcOf(sys, FAST) == Holding("t2") && PcOf(sys, OTHER) == Idle
    ensures sys.row.Some? && sys.row.value.Running? && sys.row.value.token == "t2"
  {
    assert FRESH == RunAll(seconds, []);
    var s1 := Go(seconds, from, FRESH, ActLook(SLOW));
    var s2 := Go(seconds, from, s1, ActReserve(SLOW, from, "t1"));
    var s3 := Go(seconds, from, s2, ActLook(FAST));
    assert s3.grants == [Grant("t1", from)] && !Used(s3, "t2");
    sys := Go(seconds, from, s3, ActReserve(FAST, from + Lease(seconds) + 1, "t2"));
  }

  /** `SLOW` writes the cache, and another call of its process is answered from it. */
  lemma AnswerFromWindow(seconds: int, from: int, r1: ToolResult) returns (sys: System)
    ensures Reachable(seconds, from, sys) && sys.answers == [Answer(r1, FromCache)] && PcOf(sys, FAST) == Holding("t2")
    ensures sys.row.Some? && sys.row.value.Running? && sys.row.value.token == "t2"
  {
    var s0 := TwoHolders(seconds, from);
    var s1 := Go(seconds, from, s0, ActRun(SLOW, r1));
    var s2 := Go(seconds, from, s1, ActCache(SLOW));
    sys := Go(seconds, from, s2, ActLook(OTHER));
    assert sys.answers == [Answer(r1, FromCache)];
  }

  /** In the window a process can hand out a result that never gets on record: for every two results there is a
      run in which one is given back from the cache and the other becomes the recorded one. The run has two
      reservations, the second just after the lease of the first has run out. */
  lemma WindowCanDisagree(seconds: int, from: int, r1: ToolResult, r2: ToolResult) returns (sys: System)
    ensures Reachable(seconds, from, sys) && sys.answers == [Answer(r1, FromCache), Answer(r2, Own)] && OnRecord(sys) == Some(r2)
  {
    var s0 := AnswerFromWindow(seconds, from, r1);
    var s1 := Go(seconds, from, s0, ActRun(FAST, r2));
    var s2 := Go(seconds, from, s1, ActCache(FAST));
    sys := Go(seconds, from, s2, ActComplete(FAST, false));
    assert sys.answers == s0.answers + [Answer(r2, Own)];
  }

  /** The lease decides: all results given back agree in every run whose attempts to reserve lie within a span, if and
      only if the span is no longer than the lease. */
  lemma AgreementIff(seconds: int, span: int)
    ensures (forall from: int, actions: seq<Action> | Within(actions, from, span) :: Agree(RunAll(seconds, actions)))
       <==> span <= 1_000_000 * Max(1, seconds)
  {
    if span <= Lease(seconds) {
      forall from: int, actions: seq<Action> | Within(actions, from, span) ensures Agree(RunAll(seconds, actions)) {
        SpanWithinLease(seconds, actions, from, span);
        OneReservationAgrees(seconds, actions);
      }
    } else {
      var sys := WindowCanDisagree(seconds, 0, SUCCEEDED, FAILED);
      var actions :| Within(actions, 0, Lease(seconds) + 1) && sys == RunAll(seconds, actions);
      assert Within(actions, 0, span);
      assert sys.answers[0] in sys.answers && sys.answers[1] in sys.answers;
      assert !Agree(sys);
    }
  }
}
