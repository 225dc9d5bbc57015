/** The operator's command file of src/m2harness/human_control.py: numbered lines, read back by a cursor. A line
    that does not parse is skipped by every reader. */
module HumanControl {
  import opened Wrappers
  import Store

  datatype Kind = Suggestion | Interrupt

  datatype Command = Command(sequence: nat, kind: Kind, message: string)

  /** The commands of the lines that parse. */
  function Readable(lines: seq<Option<Command>>): seq<Command>
    decreases |lines|
  {
    if lines == [] then []
    else
      var before, last := Readable(lines[..|lines| - 1]), lines[|lines| - 1];
      if last.Some? then before + [last.value] else before
  }

  lemma ReadableAppend(lines: seq<Option<Command>>, line: Option<Command>)
    ensures Readable(lines + [line]) == Readable(lines) + (if line.Some? then [line.value] else [])
  {
    assert (lines + [line])[..|lines|] == lines;
  }

  ghost predicate Increasing(commands: seq<Command>) {
    && (forall i | 0 <= i < |commands| :: commands[i].sequence >= 1)
    && (forall i, j | 0 <= i < j < |commands| :: commands[i].sequence < commands[j].sequence)
  }

  /** The greatest sequence number, or 0. */
  function Newest(commands: seq<Command>): nat
    decreases |commands|
  {
    if commands == [] then 0
    else
      var before, last := Newest(commands[..|commands| - 1]), commands[|commands| - 1].sequence;
      if before < last then last else before
  }

  lemma {:induction false} NewestIsLast(commands: seq<Command>)
    requires Increasing(commands)
    ensures Newest(commands) == if commands == [] then 0 else commands[|commands| - 1].sequence
    ensures forall c | c in commands :: c.sequence <= Newest(commands)
    decreases |commands|
  {
    if commands != [] {
      NewestIsLast(commands[..|commands| - 1]);
    }
  }

  /** The commands after the cursor, in order. */
  function After(commands: seq<Command>, cursor: nat): seq<Command>
    decreases |commands|
  {
    if commands == [] then []
    else
      var before, last := After(commands[..|commands| - 1], cursor), commands[|commands| - 1];
      if last.sequence > cursor then before + [last] else before
  }

  lemma AfterAppend(commands: seq<Command>, c: Command, cursor: nat)
    ensures After(commands + [c], cursor) == After(commands, cursor) + (if c.sequence > cursor then [c] else [])
  {
    assert (commands + [c])[..|commands|] == commands;
  }

  predicate HasInterrupt(commands: seq<Command>) {
    exists c | c in commands :: c.kind == Interrupt
  }

  lemma NextIsIncreasing(commands: seq<Command>, c: Command)
    requires Increasing(commands) && c.sequence == Newest(commands) + 1
    ensures Increasing(commands + [c])
  {
    NewestIsLast(commands);
  }

  lemma NewestAppend(commands: seq<Command>, c: Command)
    ensures Newest(commands + [c]) == if Newest(commands) < c.sequence then c.sequence else Newest(commands)
  {
    assert (commands + [c])[..|commands|] == commands;
  }

  class HumanControlStore {
    var lines: seq<Option<Command>>

    ghost predicate Valid()
      reads this
    {
      Increasing(Readable(lines))
    }

    constructor ()
      ensures Valid() && lines == []
    {
      lines := [];
    }

    /** `_append`: the new command has the next number after all that can be read. */
    method Append(kind: Kind, message: string) returns (r: Result<Command>)
      requires Valid()
      modifies this
      ensures Valid()
      ensures r.Ok? <==> 1 <= |Store.Strip(message)| <= 8_000
      ensures r.Ok? ==> r.value == Command(Newest(Readable(old(lines))) + 1, kind, Store.Strip(message))
      ensures r.Ok? ==> lines == old(lines) + [Some(r.value)] && Readable(lines) == Readable(old(lines)) + [r.value]
      ensures r.Err? ==> r.error == ValueError && lines == old(lines)
    {
      ghost var was := Readable(lines);
      var text := Store.Strip(message);
      if text == "" || |text| > 8_000 {
        return Err(ValueError);
      }
      var greatest, i := 0, 0;
      while i < |lines|
        invariant 0 <= i <= |lines| && lines == old(lines) && greatest == Newest(Readable(lines[..i]))
      {
        assert lines[..i + 1] == lines[..i] + [lines[i]];
        ReadableAppend(lines[..i], lines[i]);
        if lines[i].Some? {
          NewestAppend(Readable(lines[..i]), lines[i].value);
          if greatest < lines[i].value.sequence { greatest := lines[i].value.sequence; }
        }
        i := i + 1;
      }
      assert lines[..i] == lines;
      var command := Command(greatest + 1, kind, text);
      ReadableAppend(lines, Some(command));
      NextIsIncreasing(was, command);
      lines := lines + [Some(command)];
      return Ok(command);
    }

    /** `pending`: the readable commands after the cursor, already in order. */
    method Pending(cursor: nat) returns (r: seq<Command>)
      requires Valid()
      ensures r == After(Readable(lines), cursor)
    {
      r := [];
      var i := 0;
      while i < |lines|
        invariant 0 <= i <= |lines| && r == After(Readable(lines[..i]), cursor)
      {
        assert lines[..i + 1] == lines[..i] + [lines[i]];
        ReadableAppend(lines[..i], lines[i]);
        if lines[i].Some? {
          AfterAppend(Readable(lines[..i]), lines[i].value, cursor);
          if lines[i].value.sequence > cursor { r := r + [lines[i].value]; }
        }
        i := i + 1;
      }
      assert lines[..i] == lines;
    }

    method IsInterrupted() returns (r: bool)
      requires Valid()
      ensures r <==> HasInterrupt(Readable(lines))
    {
      var all := Pending(0);
      AfterZeroIsAll(Readable(lines));
      return HasInterrupt(all);
    }
  }

  lemma {:induction false} AfterZeroIsAll(commands: seq<Command>)
    requires Increasing(commands)
    ensures After(commands, 0) == commands
    decreases |commands|
  {
    if commands != [] {
      AfterZeroIsAll(commands[..|commands| - 1]);
      assert commands == commands[..|commands| - 1] + [commands[|commands| - 1]];
    }
  }
}
