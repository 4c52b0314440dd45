/** The driver loop of tiny-sh: read a line, skip it when empty, record it in
    the history, tokenize it, and hand the argument vector to tsh_cd when its
    first word is "cd" or to tsh_execute otherwise.

    What the shell does to the outside world is described as a sequence of
    effects: recording a line in the editline history, changing the working
    directory, and running an external program (fork, execvp, waitpid). An
    iteration ends with the shell still prompting, stopped at end of input, or
    exited through exit(-1).
 */
module Shell {
  import opened Tokens
  import opened Tokenizer

  /** The one builtin name the dispatch compares against. */
  const CdCommand: string := "cd"

  /** The status the shell passes to exit() on ALLOC_ERROR and on a `cd`
      without a path. */
  const ExitFailure: int := -1

  /** What readline returns: NULL at end of input, or a line. */
  datatype Input = EndOfInput | Line(text: string)

  datatype Effect =
    | RecordHistory(line: string)
    | ChangeDirectory(path: string)
    | Execute(argv: seq<string>)

  datatype Status = Prompting | Terminated | Exited(code: int)

  /** The effects and the resulting status of one iteration of the loop. */
  datatype Outcome = Outcome(effects: seq<Effect>, status: Status)

  /** Where a tokenized line goes. */
  datatype Action = Skip | Cd(path: string) | CdMissingPath | External(argv: seq<string>)

  /** The dispatch decision for the words of a non-empty line: an exact,
      case-sensitive comparison of the first word with "cd"; tsh_cd uses the
      second word as its path and fails without one; every other command goes
      to tsh_execute with the whole vector. A line without words is skipped:
      the source has no such guard (see IterationAsWritten). */
  function Route(argv: seq<string>): (a: Action)
    ensures a.Skip? <==> argv == []
    ensures a.CdMissingPath? <==> argv == [CdCommand]
    ensures a.Cd? <==> 1 < |argv| && argv[0] == CdCommand
    ensures a.Cd? ==> a.path == argv[1]
    ensures a.External? ==> a.argv == argv && argv[0] != CdCommand
  {
    if argv == [] then Skip
    else if argv[0] == CdCommand then
      if |argv| == 1 then CdMissingPath else Cd(argv[1])
    else External(argv)
  }

  /** One iteration of the driver loop, as a function of what readline
      returned and of how many token slots the allocator grants. */
  function Iteration(input: Input, maxSlots: nat): (o: Outcome)
    ensures o.status == Terminated <==> input.EndOfInput?
    ensures o.status.Exited? ==> o.status.code == ExitFailure && |o.effects| == 1
    ensures o.effects != [] <==> input.Line? && input.text != []
    ensures o.effects != [] ==> o.effects[0] == RecordHistory(input.text)
    ensures |o.effects| <= 2 && (|o.effects| == 2 ==> !o.effects[1].RecordHistory?)
  {
    match input
    case EndOfInput => Outcome([], Terminated)
    case Line(line) =>
      if line == [] then Outcome([], Prompting)
      else
        var words := Split(line);
        var recorded := [RecordHistory(line)];
        if maxSlots < Capacity(|words|) then Outcome(recorded, Exited(ExitFailure))
        else
          match Route(words)
          case Skip => Outcome(recorded, Prompting)
          case CdMissingPath => Outcome(recorded, Exited(ExitFailure))
          case Cd(path) => Outcome(recorded + [ChangeDirectory(path)], Prompting)
          case External(argv) => Outcome(recorded + [Execute(argv)], Prompting)
  }

  /** The body of main's loop for one line from readline: the line is
      tokenized into a NULL-terminated buffer and the dispatch reads that
      buffer, as the C code does. */
  method Step(input: Input, maxSlots: nat) returns (o: Outcome)
    requires TokenBufSize <= maxSlots
    ensures o == Iteration(input, maxSlots)
  {
    if input.EndOfInput? {
      return Outcome([], Terminated);
    }
    var line := input.text;
    if line == [] {
      return Outcome([], Prompting);
    }
    var recorded := [RecordHistory(line)];
    var tokenized := Tokenize(line, maxSlots);
    if tokenized.AllocError? {
      return Outcome(recorded, Exited(ExitFailure));
    }
    var tokens := tokenized.slots;
    if tokens[0].Null? {
      return Outcome(recorded, Prompting);
    }
    if tokens[0].text == CdCommand {
      if tokens[1].Null? {
        return Outcome(recorded, Exited(ExitFailure));
      }
      return Outcome(recorded + [ChangeDirectory(tokens[1].text)], Prompting);
    }
    var argv := ReadArguments(tokens, Split(line));
    o := Outcome(recorded + [Execute(argv)], Prompting);
  }

  /** A line without words (empty, or made of delimiters only) runs nothing:
      a non-empty one is only recorded in the history. */
  lemma NothingRunsWithoutWords(line: string, maxSlots: nat)
    requires AllDelims(line) && TokenBufSize <= maxSlots
    ensures Iteration(Line(line), maxSlots) ==
              Outcome(if line == [] then [] else [RecordHistory(line)], Prompting)
  {
    SplitEmptyIff(line);
  }

  /** `cd <path> ...` with any spacing records the line and changes to
      <path>; further words are ignored. */
  lemma CdChangesDirectory(path: string, rest: seq<string>, gaps: seq<string>, maxSlots: nat)
    requires Layout([CdCommand, path] + rest, gaps)
    requires Capacity(2 + |rest|) <= maxSlots
    ensures var line := Join([CdCommand, path] + rest, gaps);
            Iteration(Line(line), maxSlots) == Outcome([RecordHistory(line), ChangeDirectory(path)], Prompting)
  {
    var words := [CdCommand, path] + rest;
    SplitJoin(words, gaps);
    assert Join(words, gaps) != [];
  }

  /** `cd` alone makes tsh_cd exit the shell with status -1; no directory
      change happens. */
  lemma CdWithoutPathExits(gaps: seq<string>, maxSlots: nat)
    requires Layout([CdCommand], gaps) && TokenBufSize <= maxSlots
    ensures var line := Join([CdCommand], gaps);
            Iteration(Line(line), maxSlots) == Outcome([RecordHistory(line)], Exited(ExitFailure))
  {
    SplitJoin([CdCommand], gaps);
    assert Join([CdCommand], gaps) != [];
  }

  /** Any other first word runs an external program whose argument vector is
      exactly the words of the line, program name first. */
  lemma OtherCommandsExecute(words: seq<string>, gaps: seq<string>, maxSlots: nat)
    requires Layout(words, gaps) && words != [] && words[0] != CdCommand
    requires Capacity(|words|) <= maxSlots
    ensures var line := Join(words, gaps);
            Iteration(Line(line), maxSlots) == Outcome([RecordHistory(line), Execute(words)], Prompting)
  {
    SplitJoin(words, gaps);
    assert Join(words, gaps) != [];
  }

  /** Once the first buffer of TOKEN_BUFSIZE slots exists, a line whose
      words need a larger buffer than the allocator grants is recorded, and
      then tsh_realloc's failure exits the shell with status -1; nothing is
      dispatched. */
  lemma AllocFailureExits(line: string, maxSlots: nat)
    requires TokenBufSize <= maxSlots
    requires line != [] && maxSlots < Capacity(|Split(line)|)
    ensures Iteration(Line(line), maxSlots) == Outcome([RecordHistory(line)], Exited(ExitFailure))
  {
  }

  /** The comparison is case-sensitive: "CD /tmp" is an external command. */
  lemma UpperCaseCdIsExternal()
    ensures Iteration(Line("CD /tmp"), TokenBufSize) ==
              Outcome([RecordHistory("CD /tmp"), Execute(["CD", "/tmp"])], Prompting)
  {
    var gaps := ["", " ", ""];
    assert Join(["CD", "/tmp"], gaps) == "CD /tmp";
    OtherCommandsExecute(["CD", "/tmp"], gaps, TokenBufSize);
  }

  /** What the loop did with a script of readline results: its effects, the
      status it ended in, and how many results it consumed. */
  datatype Transcript = Transcript(effects: seq<Effect>, status: Status, consumed: nat)

  /** The driver loop over `inputs`: iterate until an iteration stops the
      shell or the script runs out. It stops exactly at end of input or on
      exit(-1), and consumes nothing after that. */
  function Session(inputs: seq<Input>, maxSlots: nat): (t: Transcript)
    ensures t.consumed <= |inputs|
    ensures t.status == Prompting ==> t.consumed == |inputs|
    ensures t.status == Terminated <==> 0 < t.consumed && inputs[t.consumed - 1] == EndOfInput
    ensures forall i :: 0 <= i < t.consumed - 1 ==> inputs[i] != EndOfInput
    ensures t.status.Exited? ==> t.status.code == ExitFailure
    decreases |inputs|
  {
    if inputs == [] then Transcript([], Prompting, 0)
    else
      var o := Iteration(inputs[0], maxSlots);
      if o.status != Prompting then Transcript(o.effects, o.status, 1)
      else
        var t := Session(inputs[1..], maxSlots);
        Transcript(o.effects + t.effects, t.status, t.consumed + 1)
  }

  /** The session stops at the first iteration that does not leave the shell
      prompting, with that iteration's status: every earlier iteration left
      it prompting, and nothing after the stopping one is consumed. */
  lemma {:induction false} SessionStopsAtFirstStop(inputs: seq<Input>, maxSlots: nat)
    ensures var t := Session(inputs, maxSlots);
            && (forall i :: 0 <= i < t.consumed - 1 ==> Iteration(inputs[i], maxSlots).status == Prompting)
            && (t.status != Prompting ==> 0 < t.consumed)
            && (0 < t.consumed ==> Iteration(inputs[t.consumed - 1], maxSlots).status == t.status)
    decreases |inputs|
  {
    if inputs != [] && Iteration(inputs[0], maxSlots).status == Prompting {
      var t := Session(inputs[1..], maxSlots);
      SessionStopsAtFirstStop(inputs[1..], maxSlots);
      if 0 < t.consumed {
        assert inputs[t.consumed] == inputs[1..][t.consumed - 1];
      }
      forall i | 1 <= i < t.consumed + 1
        ensures Iteration(inputs[i], maxSlots) == Iteration(inputs[1..][i - 1], maxSlots)
      {
        assert inputs[i] == inputs[1..][i - 1];
      }
    }
  }

  /** The session from the i-th readline result on starts with that
      iteration. */
  lemma SessionUnfold(inputs: seq<Input>, i: nat, maxSlots: nat)
    requires i < |inputs|
    ensures var o := Iteration(inputs[i], maxSlots);
            Session(inputs[i..], maxSlots) ==
              if o.status != Prompting then Transcript(o.effects, o.status, 1)
              else
                var t := Session(inputs[i + 1..], maxSlots);
                Transcript(o.effects + t.effects, t.status, t.consumed + 1)
  {
    assert inputs[i..][0] == inputs[i];
    assert inputs[i..][1..] == inputs[i + 1..];
  }

  /** Having produced `effects` from the first `i` inputs while still
      prompting, the session is those effects followed by the session on the
      rest of the script. */
  predicate ResumesAt(inputs: seq<Input>, i: nat, effects: seq<Effect>, maxSlots: nat)
    requires i <= |inputs|
  {
    var rest := Session(inputs[i..], maxSlots);
    Session(inputs, maxSlots) == Transcript(effects + rest.effects, rest.status, i + rest.consumed)
  }

  /** One more iteration either keeps the session resumable after it, or
      ends the session with that iteration's effects and status. */
  lemma SessionAdvance(inputs: seq<Input>, i: nat, effects: seq<Effect>, maxSlots: nat)
    requires i < |inputs| && ResumesAt(inputs, i, effects, maxSlots)
    ensures var o := Iteration(inputs[i], maxSlots);
            if o.status == Prompting then ResumesAt(inputs, i + 1, effects + o.effects, maxSlots)
            else Session(inputs, maxSlots) == Transcript(effects + o.effects, o.status, i + 1)
  {
    SessionUnfold(inputs, i, maxSlots);
    var o := Iteration(inputs[i], maxSlots);
    if o.status == Prompting {
      var rest := Session(inputs[i + 1..], maxSlots);
      assert effects + (o.effects + rest.effects) == effects + o.effects + rest.effects;
    }
  }

  /** main's `while (RUNNING)` loop, run on a finite script of readline
      results. */
  method Run(inputs: seq<Input>, maxSlots: nat) returns (t: Transcript)
    requires TokenBufSize <= maxSlots
    ensures t == Session(inputs, maxSlots)
  {
    var effects: seq<Effect> := [];
    var status := Prompting;
    var i := 0;
    while i < |inputs| && status == Prompting
      invariant 0 <= i <= |inputs|
      invariant status == Prompting ==> ResumesAt(inputs, i, effects, maxSlots)
      invariant status != Prompting ==> Session(inputs, maxSlots) == Transcript(effects, status, i)
    {
      SessionAdvance(inputs, i, effects, maxSlots);
      var o := Step(inputs[i], maxSlots);
      effects := effects + o.effects;
      status := o.status;
      i := i + 1;
    }
    if status == Prompting {
      assert inputs[i..] == [];
      assert effects + [] == effects;
    }
    t := Transcript(effects, status, i);
  }

  /** The line an effect adds to the history, if any. */
  function Entry(e: Effect): seq<string> {
    if e.RecordHistory? then [e.line] else []
  }

  /** The lines recorded in the history, in order. */
  function Recorded(effects: seq<Effect>): seq<string>
    decreases |effects|
  {
    if effects == [] then [] else Entry(effects[0]) + Recorded(effects[1..])
  }

  /** The non-empty lines among readline results, in order. */
  function NonEmptyLines(inputs: seq<Input>): seq<string>
    decreases |inputs|
  {
    if inputs == [] then []
    else (if inputs[0].Line? && inputs[0].text != [] then [inputs[0].text] else []) + NonEmptyLines(inputs[1..])
  }

  lemma {:induction false} RecordedAppend(a: seq<Effect>, b: seq<Effect>)
    ensures Recorded(a + b) == Recorded(a) + Recorded(b)
    decreases |a|
  {
    if a != [] {
      assert (a + b)[0] == a[0];
      assert (a + b)[1..] == a[1..] + b;
      RecordedAppend(a[1..], b);
      calc {
        Recorded(a + b);
        Entry(a[0]) + Recorded(a[1..] + b);
        Entry(a[0]) + (Recorded(a[1..]) + Recorded(b));
        (Entry(a[0]) + Recorded(a[1..])) + Recorded(b);
      }
    } else {
      assert a + b == b;
    }
  }

  /** One iteration records the line it read when that line is non-empty,
      and nothing else. */
  lemma IterationRecordsLine(input: Input, maxSlots: nat)
    ensures Recorded(Iteration(input, maxSlots).effects) ==
              if input.Line? && input.text != [] then [input.text] else []
  {
    var e := Iteration(input, maxSlots).effects;
    if e != [] {
      assert e[0] == RecordHistory(input.text);
      if |e| == 2 {
        assert e[1..][1..] == [];
        assert Recorded(e[1..]) == Entry(e[1]) + Recorded(e[1..][1..]);
        assert !e[1].RecordHistory?;
      } else {
        assert e[1..] == [];
      }
    }
  }

  /** The first iteration of a script records what NonEmptyLines keeps of
      its first input. */
  lemma FirstLineRecorded(inputs: seq<Input>, maxSlots: nat)
    requires inputs != []
    ensures Recorded(Iteration(inputs[0], maxSlots).effects) == NonEmptyLines([inputs[0]])
  {
    assert [inputs[0]][1..] == [];
    assert NonEmptyLines([inputs[0]][1..]) == [];
    IterationRecordsLine(inputs[0], maxSlots);
  }

  /** The non-empty lines of a prefix are those of its first input followed
      by those of the rest of the prefix. */
  lemma NonEmptyLinesPrefix(inputs: seq<Input>, k: nat)
    requires 0 < k <= |inputs|
    ensures NonEmptyLines(inputs[..k]) == NonEmptyLines([inputs[0]]) + NonEmptyLines(inputs[1..][..k - 1])
  {
    var p := inputs[..k];
    assert p[0] == inputs[0] && p[1..] == inputs[1..][..k - 1];
    assert [inputs[0]][1..] == [];
    assert NonEmptyLines([inputs[0]][1..]) == [];
  }

  /** The history holds exactly the non-empty lines the shell read, in the
      order read, whatever happened to them afterwards; empty lines never
      reach it. */
  lemma {:induction false} HistoryHoldsNonEmptyLines(inputs: seq<Input>, maxSlots: nat)
    ensures var t := Session(inputs, maxSlots);
            Recorded(t.effects) == NonEmptyLines(inputs[..t.consumed])
    decreases |inputs|
  {
    if inputs != [] {
      var o := Iteration(inputs[0], maxSlots);
      FirstLineRecorded(inputs, maxSlots);
      if o.status == Prompting {
        var t := Session(inputs[1..], maxSlots);
        HistoryHoldsNonEmptyLines(inputs[1..], maxSlots);
        RecordedAppend(o.effects, t.effects);
        NonEmptyLinesPrefix(inputs, t.consumed + 1);
      } else {
        NonEmptyLinesPrefix(inputs, 1);
        assert inputs[1..][..0] == [];
      }
    }
  }

  /** The source's behaviour where it reads a NULL pointer as a string. */
  datatype Behaviour = Defined(outcome: Outcome) | Undefined

  /** The loop body as written: strcmp is applied to readline's result
      without a NULL check, and to the first slot of the argument vector
      without checking for the sentinel. A NULL operand of strcmp is
      undefined behaviour. So is a failed first malloc of TOKEN_BUFSIZE
      slots: it is not checked, and the first token or the sentinel is then
      written through NULL. */
  function IterationAsWritten(input: Input, maxSlots: nat): (b: Behaviour)
    ensures b.Undefined? <==>
              input.EndOfInput? || (input.text != [] && (Split(input.text) == [] || maxSlots < TokenBufSize))
    ensures b.Defined? && b.outcome.effects != [] ==> b.outcome.effects[0] == RecordHistory(input.text)
  {
    match input
    case EndOfInput => Undefined
    case Line(line) =>
      if line == [] then Defined(Outcome([], Prompting))
      else
        var words := Split(line);
        var recorded := [RecordHistory(line)];
        if maxSlots < TokenBufSize then Undefined
        else if maxSlots < Capacity(|words|) then Defined(Outcome(recorded, Exited(ExitFailure)))
        else
          var args := ArgVector(words);
          match args[0]
          case Null => Undefined
          case Ptr(name) =>
            if name != CdCommand then Defined(Outcome(recorded + [Execute(words)], Prompting))
            else
              match args[1]
              case Null => Defined(Outcome(recorded, Exited(ExitFailure)))
              case Ptr(path) => Defined(Outcome(recorded + [ChangeDirectory(path)], Prompting))
  }

  /** The code as written is undefined exactly at end of input and on
      non-empty lines made of delimiters only; everywhere else it behaves as
      the guarded loop. */
  lemma AsWrittenDiffersOnlyWithoutWords(input: Input, maxSlots: nat)
    requires TokenBufSize <= maxSlots
    ensures IterationAsWritten(input, maxSlots).Undefined? <==>
              input.EndOfInput? || (input.text != [] && AllDelims(input.text))
    ensures IterationAsWritten(input, maxSlots).Defined? ==>
              IterationAsWritten(input, maxSlots).outcome == Iteration(input, maxSlots)
  {
    if input.Line? && input.text != [] {
      SplitEmptyIff(input.text);
    }
  }

  /** A line holding one space: the code as written passes the NULL sentinel
      to strcmp, while the guarded loop only records the line. */
  lemma BlankLineIsUndefined()
    ensures IterationAsWritten(Line(" "), TokenBufSize) == Undefined
    ensures Iteration(Line(" "), TokenBufSize) == Outcome([RecordHistory(" ")], Prompting)
  {
    assert Split(" "[1..]) == [];
  }

  /** End of input: the code as written passes readline's NULL to strcmp,
      while the guarded loop terminates. */
  lemma EndOfInputIsUndefined(maxSlots: nat)
    ensures IterationAsWritten(EndOfInput, maxSlots) == Undefined
    ensures Iteration(EndOfInput, maxSlots) == Outcome([], Terminated)
  {
  }
}
