/** The solve/repair loop of src/m2harness/application/solve_problem.py with its operator checkpoints. Model, code
    and review are arbitrary: `Ports` says what they answer, and what the operator submits before each checkpoint. */
module SolveLoop {
  import opened Wrappers
  import opened HumanControl

  /** The safe points at which a call looks for operator commands. */
  datatype Stage =
    | SolveStart | IterationStart | CodeExecuteStart | CodeExecuteComplete | ModelCodeReviewStart | FinalReportStart

  datatype Instruction =
    | Given(text: string)
    | FromOperator(stage: Stage, sequence: nat, message: string)
    | FromReview(iteration: nat, text: string)

  datatype Context = Context(instructions: seq<Instruction>, cursor: nat)

  // ---------- checkpoints ----------

  /** The reason given for an interrupt that was read before. */
  const UNSPECIFIED := "operator requested interrupt"

  datatype Checked = Continue(context: Context) | Stop(reason: string, context: Context)

  /** The instructions a batch of commands adds. */
  function Suggestions(stage: Stage, commands: seq<Command>): seq<Instruction>
    decreases |commands|
  {
    if commands == [] then []
    else
      var before, last := Suggestions(stage, commands[..|commands| - 1]), commands[|commands| - 1];
      if last.kind == Suggestion then before + [FromOperator(stage, last.sequence, last.message)] else before
  }

  function Note(c: Context, stage: Stage, commands: seq<Command>): Context {
    Context(c.instructions + Suggestions(stage, commands),
            if c.cursor < Newest(commands) then Newest(commands) else c.cursor)
  }

  function FirstInterrupt(commands: seq<Command>): Option<string>
    decreases |commands|
  {
    if commands == [] then None
    else if commands[0].kind == Interrupt then Some(commands[0].message)
    else FirstInterrupt(commands[1..])
  }

  /** What a checkpoint makes of the commands in the file. */
  function Checkpoint(all: seq<Command>, c: Context, stage: Stage): Checked {
    var newer := After(all, c.cursor);
    if newer == [] then
      if HasInterrupt(all) then Stop(UNSPECIFIED, c) else Continue(c)
    else
      match FirstInterrupt(newer)
      case Some(reason) => Stop(reason, Note(c, stage, newer))
      case None => Continue(Note(c, stage, newer))
  }

  lemma {:induction false} FirstInterruptIff(commands: seq<Command>)
    ensures FirstInterrupt(commands).Some? <==> HasInterrupt(commands)
    decreases |commands|
  {
    if commands != [] {
      FirstInterruptIff(commands[1..]);
      assert commands == [commands[0]] + commands[1..];
    }
  }

  /** There is an interrupt, and the reason is the message of one or the unspecified one. */
  ghost predicate IsReason(all: seq<Command>, reason: string) {
    HasInterrupt(all) && (reason == UNSPECIFIED || exists x :: x in all && x.kind == Interrupt && x.message == reason)
  }

  predicate IsFirstInterrupt(commands: seq<Command>, i: nat, message: string) {
    && i < |commands| && commands[i].kind == Interrupt && commands[i].message == message
    && forall j | 0 <= j < i :: commands[j].kind == Suggestion
  }

  lemma {:induction false} FirstInterruptIs(commands: seq<Command>)
    requires FirstInterrupt(commands).Some?
    ensures exists i: nat :: IsFirstInterrupt(commands, i, FirstInterrupt(commands).value)
    decreases |commands|
  {
    if commands[0].kind != Interrupt {
      FirstInterruptIs(commands[1..]);
      var rest := commands[1..];
      var i: nat :| IsFirstInterrupt(rest, i, FirstInterrupt(rest).value);
      assert commands[i + 1] == rest[i];
      forall j | 0 <= j < i + 1 ensures commands[j].kind == Suggestion {
        if j > 0 { assert commands[j] == rest[j - 1]; }
      }
      assert IsFirstInterrupt(commands, i + 1, FirstInterrupt(commands).value);
    } else {
      assert IsFirstInterrupt(commands, 0, commands[0].message);
    }
  }

  /** A stop names the first interrupt of those that were not read before. */
  lemma StopReason(all: seq<Command>, c: Context, stage: Stage)
    requires Checkpoint(all, c, stage).Stop?
    ensures var newer := After(all, c.cursor);
      if newer == [] then Checkpoint(all, c, stage).reason == UNSPECIFIED
      else exists i: nat :: IsFirstInterrupt(newer, i, Checkpoint(all, c, stage).reason)
    ensures IsReason(all, Checkpoint(all, c, stage).reason)
  {
    var newer := After(all, c.cursor);
    if newer != [] {
      FirstInterruptIs(newer);
      FirstInterruptIff(newer);
      AfterIsPart(all, c.cursor);
    }
  }

  /** The context has passed no interrupt: its cursor is within the file, and only suggestions lie up to it. A fresh
      context, at cursor 0, has passed none. */
  ghost predicate PassedNoInterrupt(all: seq<Command>, c: Context) {
    c.cursor <= Newest(all) && forall x | x in all && x.sequence <= c.cursor :: x.kind == Suggestion
  }

  lemma SeenIsPassed(all: seq<Command>, cursor: nat)
    requires Increasing(all)
    ensures forall x | x in all :: x in After(all, cursor) <==> x.sequence > cursor
  {
    forall x | x in all ensures x in After(all, cursor) <==> x.sequence > cursor {
      InAfter(all, cursor, x);
    }
  }

  lemma {:induction false} InAfter(all: seq<Command>, cursor: nat, x: Command)
    requires x in all
    ensures x in After(all, cursor) <==> x.sequence > cursor
    decreases |all|
  {
    var n := |all| - 1;
    AfterAreNewer(all, cursor);
    if x in all[..n] {
      InAfter(all[..n], cursor, x);
    }
  }

  /** A checkpoint of such a context goes on if and only if no interrupt is in the file, and then has still passed
      none. */
  lemma InterruptStopsIff(all: seq<Command>, c: Context, stage: Stage)
    requires Increasing(all) && PassedNoInterrupt(all, c)
    ensures Checkpoint(all, c, stage).Continue? <==> !HasInterrupt(all)
    ensures Checkpoint(all, c, stage).Continue? ==> PassedNoInterrupt(all, Checkpoint(all, c, stage).context)
  {
    SeenIsPassed(all, c.cursor);
    FirstInterruptIff(After(all, c.cursor));
    AfterIsPart(all, c.cursor);
    NewestIsLast(all);
    if After(all, c.cursor) != [] {
      PendingNewest(all, c.cursor);
    }
  }

  /** New commands do not lie before the cursor. */
  lemma MoreCommandsPassed(all: seq<Command>, more: seq<Command>, c: Context)
    requires Increasing(all + more) && Increasing(all) && PassedNoInterrupt(all, c)
    ensures PassedNoInterrupt(all + more, c)
  {
    NewestIsLast(all);
    NewestIsLast(all + more);
    forall i | 0 <= i < |more| ensures more[i].sequence > Newest(all) {
      assert (all + more)[|all| + i] == more[i];
      if all != [] { assert (all + more)[|all| - 1] == all[|all| - 1]; }
    }
    if more == [] {
      assert all + more == all;
    } else {
      assert (all + more)[|all| + |more| - 1] == more[|more| - 1];
    }
  }

  /** Whatever the cursor: once an interrupt is in the file, a checkpoint goes on if and only if something newer was
      submitted since the cursor and all of it is suggestions. That takes a context handed in with a cursor past the
      interrupt. */
  lemma InterruptOverlookedIff(all: seq<Command>, c: Context, stage: Stage)
    requires HasInterrupt(all)
    ensures Checkpoint(all, c, stage).Continue? <==>
      After(all, c.cursor) != [] && forall x | x in After(all, c.cursor) :: x.kind == Suggestion
  {
    FirstInterruptIff(After(all, c.cursor));
  }

  /** Such a file and cursor: the interrupt has number 1, and a suggestion came after it. */
  lemma InterruptCanBeOverlooked(stage: Stage)
    ensures var all := [Command(1, Interrupt, "stop"), Command(2, Suggestion, "try again")];
      Increasing(all) && HasInterrupt(all) && Checkpoint(all, Context([], 1), stage).Continue?
  {
    var all := [Command(1, Interrupt, "stop"), Command(2, Suggestion, "try again")];
    assert all[0] in all && all[..1] == [Command(1, Interrupt, "stop")];
    assert After(all[..1], 1) == [];
    assert After(all, 1) == [Command(2, Suggestion, "try again")];
    InterruptOverlookedIff(all, Context([], 1), stage);
  }

  // ---------- every suggestion once, in order ----------

  /** The operator's suggestions among the instructions. */
  function Heard(instructions: seq<Instruction>): seq<Command>
    decreases |instructions|
  {
    if instructions == [] then []
    else
      var before, last := Heard(instructions[..|instructions| - 1]), instructions[|instructions| - 1];
      if last.FromOperator? then before + [Command(last.sequence, Suggestion, last.message)] else before
  }

  /** The suggestions among the commands. */
  function Suggested(commands: seq<Command>): seq<Command>
    decreases |commands|
  {
    if commands == [] then []
    else
      var before, last := Suggested(commands[..|commands| - 1]), commands[|commands| - 1];
      if last.kind == Suggestion then before + [last] else before
  }

  /** The commands up to the cursor. */
  function Seen(all: seq<Command>, cursor: nat): seq<Command>
    decreases |all|
  {
    if all == [] then []
    else if all[|all| - 1].sequence > cursor then Seen(all[..|all| - 1], cursor)
    else all
  }

  /** The context has heard exactly the suggestions up to its cursor. */
  ghost predicate InTouch(all: seq<Command>, c: Context) {
    c.cursor <= Newest(all) && Heard(c.instructions) == Suggested(Seen(all, c.cursor))
  }

  lemma {:induction false} HeardConcat(a: seq<Instruction>, b: seq<Instruction>)
    ensures Heard(a + b) == Heard(a) + Heard(b)
    decreases |b|
  {
    if b == [] {
      assert a + b == a;
    } else {
      assert (a + b)[..|a + b| - 1] == a + b[..|b| - 1];
      HeardConcat(a, b[..|b| - 1]);
    }
  }

  lemma {:induction false} SuggestedConcat(a: seq<Command>, b: seq<Command>)
    ensures Suggested(a + b) == Suggested(a) + Suggested(b)
    decreases |b|
  {
    if b == [] {
      assert a + b == a;
    } else {
      assert (a + b)[..|a + b| - 1] == a + b[..|b| - 1];
      SuggestedConcat(a, b[..|b| - 1]);
    }
  }

  lemma {:induction false} HeardSuggestions(stage: Stage, commands: seq<Command>)
    ensures Heard(Suggestions(stage, commands)) == Suggested(commands)
    decreases |commands|
  {
    if commands != [] {
      var before, last := Suggestions(stage, commands[..|commands| - 1]), commands[|commands| - 1];
      HeardSuggestions(stage, commands[..|commands| - 1]);
      var i := FromOperator(stage, last.sequence, last.message);
      assert (before + [i])[..|before|] == before;
    }
  }

  /** The file is what was seen and what is pending. */
  lemma {:induction false} SeenAndAfter(all: seq<Command>, cursor: nat)
    requires Increasing(all)
    ensures all == Seen(all, cursor) + After(all, cursor)
    decreases |all|
  {
    if all != [] {
      var n := |all| - 1;
      SeenAndAfter(all[..n], cursor);
      assert all == all[..n] + [all[n]];
      if all[n].sequence <= cursor {
        NothingAfter(all, cursor);
      }
    }
  }

  lemma {:induction false} NothingAfter(all: seq<Command>, cursor: nat)
    requires Increasing(all) && (all != [] ==> all[|all| - 1].sequence <= cursor)
    ensures After(all, cursor) == []
    decreases |all|
  {
    if all != [] {
      NothingAfter(all[..|all| - 1], cursor);
    }
  }

  lemma SeenAll(all: seq<Command>)
    requires Increasing(all)
    ensures Seen(all, Newest(all)) == all
  {
    NewestIsLast(all);
  }

  /** The pending commands are the newest ones. */
  lemma PendingNewest(all: seq<Command>, cursor: nat)
    requires Increasing(all) && After(all, cursor) != []
    ensures Newest(After(all, cursor)) == Newest(all) > cursor
  {
    SeenAndAfter(all, cursor);
    var newer := After(all, cursor);
    assert newer[|newer| - 1] == all[|all| - 1];
    forall i, j | 0 <= i < j < |newer| ensures newer[i].sequence < newer[j].sequence {
      var k := |Seen(all, cursor)|;
      assert newer[i] == all[k + i] && newer[j] == all[k + j];
    }
    forall i | 0 <= i < |newer| ensures newer[i].sequence >= 1 {
      assert newer[i] == all[|Seen(all, cursor)| + i];
    }
    NewestIsLast(newer);
    NewestIsLast(all);
    AfterAreNewer(all, cursor);
  }

  lemma {:induction false} AfterAreNewer(all: seq<Command>, cursor: nat)
    ensures forall c | c in After(all, cursor) :: c.sequence > cursor
    decreases |all|
  {
    if all != [] {
      AfterAreNewer(all[..|all| - 1], cursor);
    }
  }

  /** A checkpoint, whether it goes on or stops, hears every suggestion in the file, each once and in order. */
  lemma CheckpointHearsAll(all: seq<Command>, c: Context, stage: Stage)
    requires Increasing(all) && InTouch(all, c)
    ensures var next := Checkpoint(all, c, stage).context;
      && InTouch(all, next) && next.cursor >= c.cursor
      && (After(all, c.cursor) != [] ==> next.cursor == Newest(all))
      && Heard(next.instructions) == Suggested(all)
  {
    var newer := After(all, c.cursor);
    SeenAndAfter(all, c.cursor);
    if newer == [] {
      assert Seen(all, c.cursor) + [] == Seen(all, c.cursor);
    } else {
      PendingNewest(all, c.cursor);
      HeardConcat(c.instructions, Suggestions(stage, newer));
      HeardSuggestions(stage, newer);
      SuggestedConcat(Seen(all, c.cursor), newer);
      SeenAll(all);
    }
  }

  lemma {:induction false} SeenIgnoresNewer(all: seq<Command>, more: seq<Command>, cursor: nat)
    requires forall c | c in more :: c.sequence > cursor
    ensures Seen(all + more, cursor) == Seen(all, cursor)
    decreases |more|
  {
    if more == [] {
      assert all + more == all;
    } else {
      assert (all + more)[..|all + more| - 1] == all + more[..|more| - 1];
      SeenIgnoresNewer(all, more[..|more| - 1], cursor);
    }
  }

  /** New commands do not change what was heard. */
  lemma MoreCommands(all: seq<Command>, more: seq<Command>, c: Context)
    requires Increasing(all + more) && Increasing(all) && InTouch(all, c)
    ensures InTouch(all + more, c)
  {
    NewestIsLast(all);
    NewestIsLast(all + more);
    forall x | x in more ensures x.sequence > c.cursor {
      var i :| 0 <= i < |more| && more[i] == x;
      assert (all + more)[|all| + i] == x;
      if all != [] { assert (all + more)[|all| - 1] == all[|all| - 1]; }
    }
    SeenIgnoresNewer(all, more, c.cursor);
    if more == [] { assert all + more == all; }
  }

  // ---------- the loop ----------

  datatype Review = Review(approve: bool, targetsCode: bool, instructions: seq<string>)

  /** The first pass: the disclosure of requested files fails, or so many routes come back. */
  datatype Explored = DisclosureFails | Routes(count: nat)

  datatype Submission = Submission(kind: Kind, message: string)

  datatype Ports = Ports(explored: Explored, reviews: nat -> Review, inbox: nat -> seq<Submission>)

  datatype SolveStatus = SolveCompleted | SolveRevisionRequired | SolveBlocked | SolveFailed

  datatype Failure = NoFailure | NoRoutes | ManyRoutes | NotDisclosed | OutOfBudget | HumanInterrupt(reason: string)

  datatype Snapshot = Snapshot(iteration: nat, review: Review, unified: bool)

  datatype Report = Report(status: SolveStatus, iterationCount: nat, iterations: seq<Snapshot>, failure: Failure)

  const MAX_REVISION_ROUNDS := 2
  const KEEP_CONTRACT := "不要重新探索或综合建模；保留本轮统一建模契约，只按 Code→Model 证据修复并重新执行。"

  function Min(a: int, b: int): int {
    if a < b then a else b
  }

  function Limit(maxIterations: nat): nat {
    Min(maxIterations, MAX_REVISION_ROUNDS + 1)
  }

  /** A review is always turned into a code repair; one that asked for something else gets one more instruction. */
  function Normalised(r: Review): Review {
    if r.targetsCode then r
    else if r.approve then r.(targetsCode := true)
    else r.(targetsCode := true, instructions := [KEEP_CONTRACT] + r.instructions)
  }

  function Lines(iteration: nat, texts: seq<string>): seq<Instruction> {
    seq(|texts|, i requires 0 <= i < |texts| => FromReview(iteration, texts[i]))
  }

  /** The review instructions among the instructions. */
  function Reviewed(instructions: seq<Instruction>): seq<Instruction>
    decreases |instructions|
  {
    if instructions == [] then []
    else
      var before, last := Reviewed(instructions[..|instructions| - 1]), instructions[|instructions| - 1];
      if last.FromReview? then before + [last] else before
  }

  /** The instructions of the reviews of iterations `start` to `end - 1`. */
  function AllLines(reviews: nat -> Review, start: nat, end: nat): seq<Instruction>
    decreases end
  {
    if end <= start then [] else AllLines(reviews, start, end - 1) + Lines(end - 1, Normalised(reviews(end - 1)).instructions)
  }

  lemma NextLines(reviews: nat -> Review, start: nat, iteration: nat, before: seq<Instruction>)
    requires start <= iteration
    ensures (before + AllLines(reviews, start, iteration)) + Lines(iteration, Normalised(reviews(iteration)).instructions)
         == before + AllLines(reviews, start, iteration + 1)
  {
    var all, lines := AllLines(reviews, start, iteration), Lines(iteration, Normalised(reviews(iteration)).instructions);
    assert AllLines(reviews, start, iteration + 1) == all + lines;
    assert (before + all) + lines == before + (all + lines);
  }

  /** What a review that does not approve adds: the line that keeps the contract, unless it is about the code anyway, and
      its own instructions in order. */
  function Asks(iteration: nat, r: Review): seq<Instruction> {
    (if r.targetsCode then [] else [FromReview(iteration, KEEP_CONTRACT)])
    + seq(|r.instructions|, k requires 0 <= k < |r.instructions| => FromReview(iteration, r.instructions[k]))
  }

  function AllAsks(reviews: nat -> Review, start: nat, end: nat): seq<Instruction>
    decreases end
  {
    if end <= start then [] else AllAsks(reviews, start, end - 1) + Asks(end - 1, reviews(end - 1))
  }

  lemma LinesAreAsks(iteration: nat, r: Review)
    requires !r.approve
    ensures Lines(iteration, Normalised(r).instructions) == Asks(iteration, r)
  {
  }

  lemma OneMoreAsk(reviews: nat -> Review, start: nat, last: nat, end: nat)
    requires start <= last && end == last + 1 && !reviews(last).approve
    requires AllLines(reviews, start, last) == AllAsks(reviews, start, last)
    ensures AllLines(reviews, start, end) == AllAsks(reviews, start, end)
  {
    LinesAreAsks(last, reviews(last));
  }

  lemma {:induction false} AllLinesAreAsks(reviews: nat -> Review, start: nat, end: nat)
    requires forall i: nat | start <= i < end :: !reviews(i).approve
    ensures AllLines(reviews, start, end) == AllAsks(reviews, start, end)
    decreases end
  {
    if start < end {
      AllLinesAreAsks(reviews, start, end - 1);
      OneMoreAsk(reviews, start, end - 1, end);
    }
  }

  /** The reviews of a completed call, as they came: none approved before the last, which approved or was at the limit. */
  ghost predicate EndsWithReview(reviews: nat -> Review, start: nat, end: nat, limit: nat) {
    && start <= end <= limit
    && (forall i: nat | start <= i < end :: !reviews(i).approve)
    && (reviews(end).approve || end == limit)
  }

  /** What the report keeps of a round. */
  ghost predicate RoundIs(round: Snapshot, iteration: nat, review: Review, last: bool) {
    && round.iteration == iteration && round.unified == last && round.review.approve == review.approve
    && Lines(iteration, round.review.instructions)
       == if review.approve then Lines(iteration, review.instructions) else Asks(iteration, review)
  }

  ghost predicate ReportsRounds(reviews: nat -> Review, start: nat, iterations: seq<Snapshot>) {
    forall k: nat | k < |iterations| :: RoundIs(iterations[k], start + k, reviews(start + k), k == |iterations| - 1)
  }

  lemma SnapshotIsRound(iteration: nat, review: Review, last: bool)
    ensures RoundIs(Snapshot(iteration, Normalised(review), last), iteration, review, last)
  {
    if !review.approve { LinesAreAsks(iteration, review); }
  }

  lemma HistoryEnds(reviews: nat -> Review, start: nat, limit: nat, iterations: seq<Snapshot>)
    requires IsHistory(reviews, start, limit, iterations)
    ensures EndsWithReview(reviews, start, start + |iterations| - 1, limit)
  {
    var n := |iterations| - 1;
    forall i: nat | start <= i < start + n ensures !reviews(i).approve {
      var k := i - start;
      assert iterations[..n][k] == iterations[k];
      assert iterations[k] == Snapshot(start + k, Normalised(reviews(start + k)), false);
    }
  }

  lemma HistoryRounds(reviews: nat -> Review, start: nat, limit: nat, iterations: seq<Snapshot>)
    requires IsHistory(reviews, start, limit, iterations)
    ensures ReportsRounds(reviews, start, iterations)
  {
    var n := |iterations| - 1;
    forall k: nat | k < |iterations| ensures RoundIs(iterations[k], start + k, reviews(start + k), k == n) {
      SnapshotIsRound(start + k, reviews(start + k), k == n);
      if k < n { assert iterations[..n][k] == iterations[k]; }
    }
  }

  /** A completed call in terms of the reviews as they came: when it ends, what it reports, and which lines it added. */
  ghost predicate Delivers(reviews: nat -> Review, start: nat, limit: nat, r: Report, before: seq<Instruction>,
                           after: seq<Instruction>)
  {
    && EndsWithReview(reviews, start, r.iterationCount, limit)
    && |r.iterations| == r.iterationCount - start + 1 && ReportsRounds(reviews, start, r.iterations)
    && after == before + AllAsks(reviews, start, r.iterationCount)
  }

  lemma OverDelivers(all: seq<Command>, o: Origin, ports: Ports, start: nat, limit: nat, explore: bool, r: Report,
                     context: Context, codeRuns: nat, trail: seq<Stage>)
    requires Over(all, o, ports, start, limit, explore, r, context, codeRuns, trail)
    ensures r.status == SolveCompleted ==> Delivers(ports.reviews, start, limit, r, o.before, Reviewed(context.instructions))
    ensures r.status == SolveCompleted && explore ==> ports.explored == Routes(1)
    ensures r.status == SolveFailed ==> ports.explored != Routes(1)
  {
    if r.status == SolveCompleted {
      HistoryEnds(ports.reviews, start, limit, r.iterations);
      HistoryRounds(ports.reviews, start, limit, r.iterations);
      AllLinesAreAsks(ports.reviews, start, r.iterationCount);
    }
  }

  lemma {:induction false} ReviewedConcat(a: seq<Instruction>, b: seq<Instruction>)
    ensures Reviewed(a + b) == Reviewed(a) + Reviewed(b)
    decreases |b|
  {
    if b == [] {
      assert a + b == a;
    } else {
      assert (a + b)[..|a + b| - 1] == a + b[..|b| - 1];
      ReviewedConcat(a, b[..|b| - 1]);
    }
  }

  lemma {:induction false} SuggestionsAreNotReviews(stage: Stage, commands: seq<Command>)
    ensures Reviewed(Suggestions(stage, commands)) == []
    decreases |commands|
  {
    if commands != [] {
      var before, last := Suggestions(stage, commands[..|commands| - 1]), commands[|commands| - 1];
      SuggestionsAreNotReviews(stage, commands[..|commands| - 1]);
      var i := FromOperator(stage, last.sequence, last.message);
      assert (before + [i])[..|before|] == before;
    }
  }

  lemma {:induction false} LinesAreReviews(iteration: nat, texts: seq<string>)
    ensures Reviewed(Lines(iteration, texts)) == Lines(iteration, texts) && Heard(Lines(iteration, texts)) == []
    decreases |texts|
  {
    if texts != [] {
      var n := |texts| - 1;
      LinesAreReviews(iteration, texts[..n]);
      assert Lines(iteration, texts)[..n] == Lines(iteration, texts[..n]);
      assert Lines(iteration, texts) == Lines(iteration, texts[..n]) + [FromReview(iteration, texts[n])];
    }
  }

  lemma CheckpointKeepsReviews(all: seq<Command>, c: Context, stage: Stage)
    ensures Reviewed(Checkpoint(all, c, stage).context.instructions) == Reviewed(c.instructions)
  {
    var newer := After(all, c.cursor);
    ReviewedConcat(c.instructions, Suggestions(stage, newer));
    SuggestionsAreNotReviews(stage, newer);
  }

  lemma AddingLines(all: seq<Command>, c: Context, iteration: nat, texts: seq<string>)
    ensures var next := c.(instructions := c.instructions + Lines(iteration, texts));
      && (InTouch(all, c) ==> InTouch(all, next))
      && Reviewed(next.instructions) == Reviewed(c.instructions) + Lines(iteration, texts)
  {
    LinesAreReviews(iteration, texts);
    HeardConcat(c.instructions, Lines(iteration, texts));
    ReviewedConcat(c.instructions, Lines(iteration, texts));
  }

  /** The file only grew, a context in touch stayed in touch, and no review instruction was added. */
  ghost predicate Advanced(before: seq<Command>, c: Context, after: seq<Command>, d: Context) {
    && before <= after
    && (InTouch(before, c) ==> InTouch(after, d))
    && Reviewed(d.instructions) == Reviewed(c.instructions)
  }

  /** A checkpoint went on exactly if there was no interrupt, and then still none was passed. */
  ghost predicate StopsAtInterrupt(all: seq<Command>, r: Checked) {
    && (r.Continue? <==> !HasInterrupt(all))
    && (r.Continue? ==> PassedNoInterrupt(all, r.context))
  }

  lemma AdvancedTwice(a: seq<Command>, c: Context, b: seq<Command>, d: Context, e: seq<Command>, f: Context)
    requires Advanced(a, c, b, d) && Advanced(b, d, e, f)
    ensures Advanced(a, c, e, f)
  {
  }

  /** The checkpoints around code and before the review, and those of a whole pass. */
  const CODE_STAGES := [CodeExecuteStart, CodeExecuteComplete, ModelCodeReviewStart]
  const PASS := [IterationStart] + CODE_STAGES

  /** The checkpoints of `n` passes. */
  function Passes(n: nat): seq<Stage> {
    if n == 0 then [] else Passes(n - 1) + PASS
  }

  class SolveProblemService {
    const control: HumanControlStore?
    const maxIterations: nat

    /** `__post_init__` refuses other limits. */
    constructor (control: HumanControlStore?, maxIterations: nat)
      requires 1 <= maxIterations <= 20
      ensures this.control == control && this.maxIterations == maxIterations
    {
      this.control, this.maxIterations := control, maxIterations;
    }

    ghost predicate Valid()
      reads this, control
    {
      1 <= maxIterations <= 20 && (control != null ==> control.Valid())
    }

    /** The commands that can be read now. */
    ghost function Commands(): seq<Command>
      reads this, control
    {
      if control != null then Readable(control.lines) else []
    }

    /** Before a checkpoint the operator may submit anything; what the store refuses is not submitted. */
    method Submit(submissions: seq<Submission>)
      requires Valid()
      modifies control
      ensures Valid() && old(Commands()) <= Commands()
    {
      if control != null {
        var i := 0;
        while i < |submissions|
          invariant 0 <= i <= |submissions| && control.Valid() && old(Commands()) <= Readable(control.lines)
        {
          var appended := control.Append(submissions[i].kind, submissions[i].message);
          i := i + 1;
        }
      }
    }

    /** `_control_checkpoint`: the loop over the pending commands. */
    method ControlCheckpoint(context: Context, stage: Stage) returns (r: Checked)
      requires Valid()
      ensures control != null ==> r == Checkpoint(Commands(), context, stage)
      ensures control == null ==> r == Continue(context)
    {
      if control == null {
        return Continue(context);
      }
      var commands := control.Pending(context.cursor);
      if commands == [] {
        var interrupted := control.IsInterrupted();
        if interrupted {
          return Stop(UNSPECIFIED, context);
        }
        return Continue(context);
      }
      var instructions, i := context.instructions, 0;
      var cursor: nat := context.cursor;
      while i < |commands|
        invariant 0 <= i <= |commands|
        invariant Context(instructions, cursor) == Note(context, stage, commands[..i])
      {
        assert commands[..i + 1][..i] == commands[..i];
        if cursor < commands[i].sequence {
          cursor := commands[i].sequence;
        }
        if commands[i].kind == Suggestion {
          instructions := instructions + [FromOperator(stage, commands[i].sequence, commands[i].message)];
        }
        i := i + 1;
      }
      assert commands[..i] == commands;
      var interrupt := FirstInterrupt(commands);
      if interrupt.Some? {
        return Stop(interrupt.value, Context(instructions, cursor));
      }
      return Continue(Context(instructions, cursor));
    }

    /** The operator's turn and then the checkpoint, noted on the trail. What was heard stays heard, and all there
        is, is heard. */
    method At(context: Context, stage: Stage, submissions: seq<Submission>, ghost before: seq<Stage>)
      returns (r: Checked, ghost trail: seq<Stage>)
      requires Valid()
      modifies control
      ensures Valid() && Advanced(old(Commands()), context, Commands(), r.context)
      ensures old(InTouch(Commands(), context)) && control != null ==> Heard(r.context.instructions) == Suggested(Commands())
      ensures r.Stop? ==> IsReason(Commands(), r.reason)
      ensures trail == before + [stage]
      ensures old(PassedNoInterrupt(Commands(), context)) ==> StopsAtInterrupt(Commands(), r)
    {
      ghost var was := Commands();
      trail := before + [stage];
      Submit(submissions);
      r := ControlCheckpoint(context, stage);
      CheckpointKeepsReviews(Commands(), context, stage);
      if control != null && InTouch(was, context) {
        assert Commands() == was + Commands()[|was|..];
        MoreCommands(was, Commands()[|was|..], context);
        CheckpointHearsAll(Commands(), context, stage);
      }
      if control != null && PassedNoInterrupt(was, context) {
        assert Commands() == was + Commands()[|was|..];
        MoreCommandsPassed(was, Commands()[|was|..], context);
        InterruptStopsIff(Commands(), context, stage);
      }
      StopMeansInterrupt(Commands(), context, stage);
    }

    /** Code between its checkpoints, up to the one before the review. */
    method RunCode(iteration: nat, context: Context, ports: Ports) returns (at: Checked, ran: bool, ghost trail: seq<Stage>)
      requires Valid()
      modifies control
      ensures Valid() && Advanced(old(Commands()), context, Commands(), at.context)
      ensures at.Continue? ==> ran && trail == CODE_STAGES
      ensures at.Stop? ==> IsReason(Commands(), at.reason) && trail <= CODE_STAGES
      ensures ran <==> |trail| > 1
      ensures old(PassedNoInterrupt(Commands(), context)) ==> StopsAtInterrupt(Commands(), at)
    {
      ghost var c0 := Commands();
      ran := false;
      at, trail := At(context, CodeExecuteStart, ports.inbox(5 * iteration + 1), []);
      if at.Stop? { return; }
      ghost var c1, d1 := Commands(), at.context;
      ran := true;
      at, trail := AfterCode(iteration, at.context, ports, trail);
      AdvancedTwice(c0, context, c1, d1, Commands(), at.context);
    }

    /** The checkpoint after code, and the one before the review. */
    method AfterCode(iteration: nat, context: Context, ports: Ports, ghost before: seq<Stage>)
      returns (at: Checked, ghost trail: seq<Stage>)
      requires Valid() && before == [CodeExecuteStart]
      modifies control
      ensures Valid() && Advanced(old(Commands()), context, Commands(), at.context)
      ensures at.Continue? ==> trail == CODE_STAGES
      ensures at.Stop? ==> IsReason(Commands(), at.reason) && trail <= CODE_STAGES
      ensures |trail| > 1
      ensures old(PassedNoInterrupt(Commands(), context)) ==> StopsAtInterrupt(Commands(), at)
    {
      ghost var c0 := Commands();
      at, trail := At(context, CodeExecuteComplete, ports.inbox(5 * iteration + 2), before);
      if at.Stop? { return; }
      ghost var c1, d1 := Commands(), at.context;
      at, trail := At(at.context, ModelCodeReviewStart, ports.inbox(5 * iteration + 3), trail);
      AdvancedTwice(c0, context, c1, d1, Commands(), at.context);
    }

    /** The first checkpoint of a pass, after which the previous review's instructions enter the context. */
    method Begin(iteration: nat, start: Context, texts: seq<string>, ports: Ports) returns (at: Checked, ghost trail: seq<Stage>)
      requires iteration >= 1 && Valid()
      modifies control
      ensures Valid() && old(Commands()) <= Commands()
      ensures old(InTouch(Commands(), start)) ==> InTouch(Commands(), at.context)
      ensures at.Stop? ==> IsReason(Commands(), at.reason) && Reviewed(at.context.instructions) == Reviewed(start.instructions)
      ensures at.Continue? ==> Reviewed(at.context.instructions) == Reviewed(start.instructions) + Lines(iteration - 1, texts)
      ensures trail == [IterationStart]
      ensures old(PassedNoInterrupt(Commands(), start)) ==> StopsAtInterrupt(Commands(), at)
    {
      at, trail := At(start, IterationStart, ports.inbox(5 * iteration), []);
      if at.Continue? {
        AddingLines(Commands(), at.context, iteration - 1, texts);
        at := Continue(at.context.(instructions := at.context.instructions + Lines(iteration - 1, texts)));
      }
    }

    /** One pass of the loop. Only a first pass without a resumed model explores. */
    method Iterate(iteration: nat, limit: nat, explore: bool, start: Context, texts: seq<string>, ports: Ports)
      returns (end: Ending, context: Context, ran: bool, ghost trail: seq<Stage>)
      requires iteration >= 1 && Valid()
      modifies control
      ensures Valid() && old(Commands()) <= Commands()
      ensures old(InTouch(Commands(), start)) ==> InTouch(Commands(), context)
      ensures end.Goes? || end.Finishes? ==>
        ran && Reviewed(context.instructions) == Reviewed(start.instructions) + Lines(iteration - 1, texts)
            && end.review == Normalised(ports.reviews(iteration))
            && (end.Finishes? <==> end.review.approve || iteration == limit)
            && (explore ==> FirstPassFailure(ports.explored) == NoFailure)
      ensures end.Fails? ==> !ran && explore && end.failure == FirstPassFailure(ports.explored) != NoFailure
      ensures end.Blocks? ==> IsReason(Commands(), end.reason)
      ensures old(PassedNoInterrupt(Commands(), start)) ==>
        (end.Blocks? <==> HasInterrupt(Commands())) && (end.Goes? ==> PassedNoInterrupt(Commands(), context))
      ensures end.Goes? ==> trail == PASS
      ensures end.Finishes? ==> trail == PASS + [FinalReportStart]
      ensures end.Blocks? ==> trail <= PASS + [FinalReportStart]
    {
      ran := false;
      var at;
      at, trail := Begin(iteration, start, texts, ports);
      context := at.context;
      if at.Stop? { return Blocks(at.reason), context, ran, trail; }
      if explore && FirstPassFailure(ports.explored) != NoFailure {
        return Fails(FirstPassFailure(ports.explored)), context, ran, trail;
      }
      ghost var code;
      at, ran, code := RunCode(iteration, context, ports);
      context, trail := at.context, trail + code;
      if at.Stop? { return Blocks(at.reason), context, ran, trail; }
      var review := Normalised(ports.reviews(iteration));
      if review.approve || iteration == limit {
        at, trail := At(context, FinalReportStart, ports.inbox(5 * iteration + 4), trail);
        context := at.context;
        if at.Stop? { return Blocks(at.reason), context, ran, trail; }
        return Finishes(review), context, ran, trail;
      }
      return Goes(review), context, ran, trail;
    }

    /** `solve`. Every suggestion is heard once and in order, every earlier review's instructions are added once,
        code runs at most three times, a call whose context has passed no interrupt ends BLOCKED exactly if an interrupt
        was in the file at its last checkpoint, and the call always ends inside the loop: the return after it, with its
        exhausted budget, is never reached, and REVISION_REQUIRED is never given back. */
    method Solve(resume: Option<int>, initial: Context, ports: Ports)
      returns (r: Result<Report>, context: Context, codeRuns: nat, ghost trail: seq<Stage>)
      requires Valid()
      modifies control
      ensures Valid() && old(Commands()) <= Commands()
      ensures old(InTouch(Commands(), initial)) ==> InTouch(Commands(), context)
      ensures codeRuns <= maxIterations && codeRuns <= 3
      ensures r.Err? ==> r.error == ValueError && !InLimits(resume, maxIterations)
      ensures r.Ok? && !InLimits(resume, maxIterations) ==> r.value.status == SolveBlocked
      ensures r.Ok? ==> Ends(r.value, ports, First(resume), Limit(maxIterations), codeRuns)
      ensures r.Ok? && r.value.status == SolveBlocked ==>
        r.value.failure.HumanInterrupt? && IsReason(Commands(), r.value.failure.reason)
      ensures old(PassedNoInterrupt(Commands(), initial)) ==>
        (r.Ok? && r.value.status == SolveBlocked <==> HasInterrupt(Commands()))
      ensures r.Ok? && r.value.status == SolveCompleted ==> trail == [SolveStart] + Passes(codeRuns) + [FinalReportStart]
      ensures r.Ok? && r.value.status == SolveCompleted ==>
        Delivers(ports.reviews, First(resume), Limit(maxIterations), r.value, Reviewed(initial.instructions),
                 Reviewed(context.instructions))
      ensures r.Ok? && resume.None? ==>
        && (r.value.status == SolveFailed ==> ports.explored != Routes(1))
        && (r.value.status == SolveCompleted ==> ports.explored == Routes(1))
    {
      codeRuns := 0;
      var at;
      at, trail := At(initial, SolveStart, ports.inbox(0), []);
      context := at.context;
      if at.Stop? {
        return Ok(Report(SolveBlocked, 0, [], HumanInterrupt(at.reason))), context, codeRuns, trail;
      }
      if !InLimits(resume, maxIterations) {
        return Err(ValueError), context, codeRuns, trail;
      }
      ghost var origin := OriginOf(Commands(), context);
      var report: Report;
      ghost var rest;
      report, context, codeRuns, rest := Loop(First(resume), Limit(maxIterations), resume.None?, context, ports);
      OverDelivers(Commands(), origin, ports, First(resume), Limit(maxIterations), resume.None?, report, context, codeRuns,
                   rest);
      r, trail := Ok(report), trail + rest;
    }

    /** The loop over the iterations. */
    method Loop(start: nat, limit: nat, explore: bool, initial: Context, ports: Ports)
      returns (r: Report, context: Context, codeRuns: nat, ghost trail: seq<Stage>)
      requires 1 <= start <= limit && Valid()
      modifies control
      ensures Valid() && old(Commands()) <= Commands()
      ensures Over(Commands(), old(OriginOf(Commands(), initial)), ports, start, limit, explore, r, context, codeRuns, trail)
    {
      ghost var origin := OriginOf(Commands(), initial);
      var turn := Turn([], [], initial);
      trail := [];
      while start + |turn.iterations| <= limit
        invariant Valid() && old(Commands()) <= Commands()
        invariant Going(Commands(), origin, ports, start, limit, explore, turn, trail)
        decreases limit - |turn.iterations|
      {
        var done;
        done, r, turn, codeRuns, trail := Pass(start, limit, explore, turn, ports, origin, trail);
        if done {
          return r, turn.context, codeRuns, trail;
        }
      }
      assert false;
    }

    /** One turn of the loop: a report, or the state for the next turn. */
    method Pass(start: nat, limit: nat, explore: bool, turn: Turn, ports: Ports, ghost origin: Origin, ghost before: seq<Stage>)
      returns (done: bool, r: Report, next: Turn, codeRuns: nat, ghost trail: seq<Stage>)
      requires start >= 1 && Valid() && Going(Commands(), origin, ports, start, limit, explore, turn, before)
      modifies control
      ensures Valid() && old(Commands()) <= Commands()
      ensures done ==> Over(Commands(), origin, ports, start, limit, explore, r, next.context, codeRuns, trail)
      ensures !done ==> Going(Commands(), origin, ports, start, limit, explore, next, trail)
      ensures !done ==> |next.iterations| == |turn.iterations| + 1
    {
      var iteration := start + |turn.iterations|;
      var end, context, ran;
      ghost var pass;
      end, context, ran, pass := Iterate(iteration, limit, explore && turn.iterations == [], turn.context, turn.texts, ports);
      codeRuns := |turn.iterations| + if ran then 1 else 0;
      trail := before + pass;
      match end {
        case Blocks(reason) =>
          r, next := Report(SolveBlocked, iteration, [], HumanInterrupt(reason)), turn.(context := context);
          BlockedIsOver(Commands(), origin, ports, start, limit, explore, r, context, codeRuns, trail);
          return true, r, next, codeRuns, trail;
        case Fails(failure) =>
          r, next := Report(SolveFailed, iteration - 1, turn.iterations, failure), turn.(context := context);
          FailedIsOver(Commands(), origin, ports, start, limit, explore, r, context, trail);
          return true, r, next, codeRuns, trail;
        case Finishes(review) =>
          r := Report(SolveCompleted, iteration, turn.iterations + [Snapshot(iteration, review, true)], NoFailure);
          next := turn.(context := context);
          FinishedIsOver(Commands(), origin, ports, start, limit, explore, turn, before, review, context);
          return true, r, next, codeRuns, trail;
        case Goes(review) =>
          next := Turn(turn.iterations + [Snapshot(iteration, review, false)], review.instructions, context);
          GoesOn(Commands(), origin, ports, start, limit, explore, turn, before, review, context);
          return false, Report(SolveFailed, 0, [], OutOfBudget), next, codeRuns, trail;
      }
    }
  }

  /** The variables the loop carries from turn to turn. */
  datatype Turn = Turn(iterations: seq<Snapshot>, texts: seq<string>, context: Context)

  /** What a call started from: was the context in touch, had it passed no interrupt, and which review instructions
      did it hold. */
  datatype Origin = Origin(touched: bool, clean: bool, before: seq<Instruction>)

  ghost function OriginOf(all: seq<Command>, c: Context): Origin {
    Origin(InTouch(all, c), PassedNoInterrupt(all, c), Reviewed(c.instructions))
  }

  ghost predicate Going(all: seq<Command>, o: Origin, ports: Ports, start: nat, limit: nat, explore: bool, turn: Turn,
                        trail: seq<Stage>)
    requires start >= 1
  {
    && start + |turn.iterations| <= limit
    && (explore && turn.iterations != [] ==> FirstPassFailure(ports.explored) == NoFailure)
    && (o.touched ==> InTouch(all, turn.context))
    && (o.clean ==> PassedNoInterrupt(all, turn.context))
    && UnderWay(ports.reviews, start, o.before, turn.iterations, Reviewed(turn.context.instructions), turn.texts, trail)
  }

  /** A call that is over, from the first iteration on. */
  ghost predicate Over(all: seq<Command>, o: Origin, ports: Ports, start: nat, limit: nat, explore: bool, r: Report,
                       context: Context, codeRuns: nat, trail: seq<Stage>)
  {
    && (o.touched ==> InTouch(all, context))
    && codeRuns + start <= limit + 1
    && Ends(r, ports, start, limit, codeRuns)
    && (r.status == SolveFailed ==> explore)
    && (r.status == SolveCompleted && explore ==> FirstPassFailure(ports.explored) == NoFailure)
    && (r.status == SolveBlocked ==> r.failure.HumanInterrupt? && IsReason(all, r.failure.reason))
    && (o.clean ==> (r.status == SolveBlocked <==> HasInterrupt(all)))
    && (r.status == SolveCompleted ==>
          trail == Passes(codeRuns) + [FinalReportStart] && Reviewed(context.instructions) == o.before + AllLines(ports.reviews, start, r.iterationCount))
  }

  /** Between two passes: open rounds so far, their instructions but the last ones added, and whole passes behind. */
  ghost predicate UnderWay(reviews: nat -> Review, start: nat, before: seq<Instruction>, iterations: seq<Snapshot>,
                           reviewed: seq<Instruction>, texts: seq<string>, trail: seq<Stage>)
    requires start >= 1
  {
    && AllOpen(reviews, start, iterations)
    && reviewed + Lines(start + |iterations| - 1, texts) == before + AllLines(reviews, start, start + |iterations|)
    && trail == Passes(|iterations|)
  }

  lemma NextPass(reviews: nat -> Review, start: nat, before: seq<Instruction>, iterations: seq<Snapshot>,
                 reviewed: seq<Instruction>, texts: seq<string>, trail: seq<Stage>, review: Review)
    requires start >= 1 && UnderWay(reviews, start, before, iterations, reviewed, texts, trail)
    requires review == Normalised(reviews(start + |iterations|)) && !review.approve
    ensures UnderWay(reviews, start, before, iterations + [Snapshot(start + |iterations|, review, false)],
                     reviewed + Lines(start + |iterations| - 1, texts), review.instructions, trail + PASS)
  {
    NextOpen(reviews, start, iterations, review);
    NextLines(reviews, start, start + |iterations|, before);
  }

  lemma LastPass(reviews: nat -> Review, start: nat, limit: nat, before: seq<Instruction>, iterations: seq<Snapshot>,
                 reviewed: seq<Instruction>, texts: seq<string>, trail: seq<Stage>, review: Review)
    requires start >= 1 && UnderWay(reviews, start, before, iterations, reviewed, texts, trail) && start + |iterations| <= limit
    requires review == Normalised(reviews(start + |iterations|)) && (review.approve || start + |iterations| == limit)
    ensures IsHistory(reviews, start, limit, iterations + [Snapshot(start + |iterations|, review, true)])
    ensures reviewed + Lines(start + |iterations| - 1, texts) == before + AllLines(reviews, start, start + |iterations|)
    ensures trail + (PASS + [FinalReportStart]) == Passes(|iterations| + 1) + [FinalReportStart]
  {
    LastRound(reviews, start, limit, iterations, review);
  }

  lemma BlockedIsOver(all: seq<Command>, o: Origin, ports: Ports, start: nat, limit: nat, explore: bool, r: Report,
                      context: Context, codeRuns: nat, trail: seq<Stage>)
    requires (o.touched ==> InTouch(all, context)) && codeRuns + start <= limit + 1
    requires r.status == SolveBlocked && r.iterations == [] && r.failure.HumanInterrupt? && IsReason(all, r.failure.reason)
    ensures Over(all, o, ports, start, limit, explore, r, context, codeRuns, trail)
  {
  }

  lemma FailedIsOver(all: seq<Command>, o: Origin, ports: Ports, start: nat, limit: nat, explore: bool, r: Report,
                     context: Context, trail: seq<Stage>)
    requires (o.touched ==> InTouch(all, context)) && (o.clean ==> !HasInterrupt(all)) && start <= limit && explore
    requires r.status == SolveFailed && r.iterations == [] && r.failure == FirstPassFailure(ports.explored) != NoFailure
    ensures Over(all, o, ports, start, limit, explore, r, context, 0, trail)
  {
  }

  lemma FinishedIsOver(all: seq<Command>, o: Origin, ports: Ports, start: nat, limit: nat, explore: bool, turn: Turn,
                       trail: seq<Stage>, review: Review, context: Context)
    requires start >= 1 && start + |turn.iterations| <= limit
    requires UnderWay(ports.reviews, start, o.before, turn.iterations, Reviewed(turn.context.instructions), turn.texts, trail)
    requires (o.touched ==> InTouch(all, context)) && (o.clean ==> !HasInterrupt(all))
    requires review == Normalised(ports.reviews(start + |turn.iterations|))
    requires explore ==> FirstPassFailure(ports.explored) == NoFailure
    requires review.approve || start + |turn.iterations| == limit
    requires Reviewed(context.instructions)
          == Reviewed(turn.context.instructions) + Lines(start + |turn.iterations| - 1, turn.texts)
    ensures var n := start + |turn.iterations|;
      Over(all, o, ports, start, limit, explore, Report(SolveCompleted, n, turn.iterations + [Snapshot(n, review, true)], NoFailure),
           context, |turn.iterations| + 1, trail + (PASS + [FinalReportStart]))
  {
    LastPass(ports.reviews, start, limit, o.before, turn.iterations, Reviewed(turn.context.instructions), turn.texts, trail,
             review);
  }

  lemma GoesOn(all: seq<Command>, o: Origin, ports: Ports, start: nat, limit: nat, explore: bool, turn: Turn,
               trail: seq<Stage>, review: Review, context: Context)
    requires start >= 1 && start + |turn.iterations| < limit
    requires explore ==> FirstPassFailure(ports.explored) == NoFailure
    requires UnderWay(ports.reviews, start, o.before, turn.iterations, Reviewed(turn.context.instructions), turn.texts, trail)
    requires (o.touched ==> InTouch(all, context)) && (o.clean ==> PassedNoInterrupt(all, context))
    requires review == Normalised(ports.reviews(start + |turn.iterations|)) && !review.approve
    requires Reviewed(context.instructions)
          == Reviewed(turn.context.instructions) + Lines(start + |turn.iterations| - 1, turn.texts)
    ensures Going(all, o, ports, start, limit, explore,
                  Turn(turn.iterations + [Snapshot(start + |turn.iterations|, review, false)], review.instructions, context),
                  trail + PASS)
  {
    NextPass(ports.reviews, start, o.before, turn.iterations, Reviewed(turn.context.instructions), turn.texts, trail, review);
  }

  function First(resume: Option<int>): nat {
    if resume.Some? && resume.value >= 1 then resume.value else 1
  }

  predicate InLimits(resume: Option<int>, maxIterations: nat) {
    resume.Some? ==> 1 <= resume.value <= Limit(maxIterations)
  }

  lemma NextOpen(reviews: nat -> Review, start: nat, iterations: seq<Snapshot>, review: Review)
    requires AllOpen(reviews, start, iterations) && review == Normalised(reviews(start + |iterations|)) && !review.approve
    ensures AllOpen(reviews, start, iterations + [Snapshot(start + |iterations|, review, false)])
  {
  }

  lemma LastRound(reviews: nat -> Review, start: nat, limit: nat, iterations: seq<Snapshot>, review: Review)
    requires AllOpen(reviews, start, iterations) && start + |iterations| <= limit
    requires review == Normalised(reviews(start + |iterations|)) && (review.approve || start + |iterations| == limit)
    ensures IsHistory(reviews, start, limit, iterations + [Snapshot(start + |iterations|, review, true)])
  {
    var all := iterations + [Snapshot(start + |iterations|, review, true)];
    assert all[..|all| - 1] == iterations;
  }

  /** How a call may end: never with a revision request or an exhausted budget. */
  ghost predicate Ends(r: Report, ports: Ports, start: nat, limit: nat, codeRuns: nat) {
    match r.status
    case SolveRevisionRequired => false
    case SolveBlocked => r.iterations == [] && r.failure.HumanInterrupt?
    case SolveFailed => codeRuns == 0 && r.iterations == [] && r.failure == FirstPassFailure(ports.explored) != NoFailure
    case SolveCompleted =>
      && r.failure == NoFailure && codeRuns == |r.iterations| && r.iterationCount == start + codeRuns - 1
      && IsHistory(ports.reviews, start, limit, r.iterations)
  }

  datatype Ending = Blocks(reason: string) | Fails(failure: Failure) | Goes(review: Review) | Finishes(review: Review)

  function FirstPassFailure(e: Explored): Failure {
    match e
    case DisclosureFails => NotDisclosed
    case Routes(n) => if n == 0 then NoRoutes else if n != 1 then ManyRoutes else NoFailure
  }

  /** The rounds before the last: none approved, none unified. */
  ghost predicate AllOpen(reviews: nat -> Review, start: nat, iterations: seq<Snapshot>) {
    forall i | 0 <= i < |iterations| ::
      iterations[i] == Snapshot(start + i, Normalised(reviews(start + i)), false) && !iterations[i].review.approve
  }

  /** A completed call: open rounds, and a last one that was approved or reached the limit. */
  ghost predicate IsHistory(reviews: nat -> Review, start: nat, limit: nat, iterations: seq<Snapshot>) {
    && iterations != []
    && (var n := |iterations| - 1;
        && AllOpen(reviews, start, iterations[..n])
        && iterations[n] == Snapshot(start + n, Normalised(reviews(start + n)), true)
        && start + n <= limit && (iterations[n].review.approve || start + n == limit))
  }

  lemma StopMeansInterrupt(all: seq<Command>, c: Context, stage: Stage)
    ensures Checkpoint(all, c, stage).Stop? ==> IsReason(all, Checkpoint(all, c, stage).reason)
  {
    if Checkpoint(all, c, stage).Stop? { StopReason(all, c, stage); }
  }

  lemma {:induction false} AfterIsPart(all: seq<Command>, cursor: nat)
    ensures forall c | c in After(all, cursor) :: c in all
    decreases |all|
  {
    if all != [] {
      AfterIsPart(all[..|all| - 1], cursor);
    }
  }
}
