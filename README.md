# tiny-sh in Dafny

A model of the core of tiny-sh, a minimal interactive shell written in C
(`src/tinysh.c`). It covers the read–tokenize–dispatch loop. Each
iteration:

- reads a line;
- skips the line when it is empty;
- records the line in the history;
- splits it into a NULL-terminated vector of tokens on the delimiters
  space, tab, carriage return, newline and bell;
- hands the vector to the `cd` builtin when its first token is exactly
  `cd`, and to the external-program executor otherwise.

The project has three modules.

- `Tokens` (`tokens.dfy`) says what splitting a line means,
  independently of any buffer:
  - `Split` takes the maximal runs of non-delimiters, in order, the way
    successive `strtok` calls do.
  - `Join` and `Layout` give a second description: a line is its words
    with runs of delimiters around and between them.
  - Lemmas prove that the two descriptions agree in both directions.
- `Tokenizer` (`tokenizer.dfy`) models `tsh_tokenize` and `tsh_realloc`
  imperatively:
  - The argument vector is an `array<Slot>`; a slot is a token pointer
    or NULL.
  - The buffer starts at `TOKEN_BUFSIZE` (64) slots and grows by 64
    through a reallocation whenever the token count reaches the capacity.
  - The allocator is a parameter `maxSlots`: a request for more slots
    fails, and that failure ends the shell with status -1.
  - The methods are proved against `Split` and against `Capacity`, the
    closed form of the buffer size.
- `Shell` (`shell.dfy`) models the body of `main`'s loop:
  - `Step` tokenizes into the buffer and dispatches by reading the
    buffer's slots, as the C code does. `Run` runs the loop over a finite
    script of readline results.
  - Both are proved equal to the pure descriptions `Iteration` and
    `Session`.
  - What the shell does to the outside world is a list of effects:
    `RecordHistory`, `ChangeDirectory` and `Execute`.
  - `IterationAsWritten` models the two places where the C code passes a
    NULL pointer to `strcmp` (see Findings).

The model follows the code, with two exceptions.

- The loop lacks two NULL checks. In the model, a line without words is
  recorded and then skipped, and end of input stops the loop. The code as
  written passes NULL to `strcmp` in both cases. `IterationAsWritten`
  models that code, and Findings records both cases.
- The first malloc of 64 token slots is not checked. `Step`, `Run` and
  the tokenizer require it to succeed. The pure `Iteration` and `Session`
  treat its failure as an allocation-error exit. The code writes through
  NULL instead, and `IterationAsWritten` models that.

Otherwise the model keeps the code's behaviour, including two points a
user might not expect:

- A `cd` without a path exits the process with status -1, rather than
  reporting the error and prompting again.
- The child's exit status is neither read nor propagated: `tsh_execute`
  always returns 0, so an external command contributes nothing beyond
  its `Execute` effect.

## Model

| member | source | states |
|---|---|---|
| Tokens.RunLength | src/tinysh.c:39 | the run strtok takes is delimiter-free, and is ended by a delimiter or by the end of the line |
| Tokens.Split | src/tinysh.c:14 | every token is non-empty and holds none of the five delimiters: consecutive delimiters never produce an empty token |
| Tokens.SplitSkipsDelims | src/tinysh.c:39 | leading delimiters contribute no token |
| Tokens.SplitTakesWord | src/tinysh.c:39-48 | a delimiter-free run ended by a delimiter or by the end of the line is taken whole as the next token |
| Tokens.SplitEmptyIff | src/tinysh.c:39-40 | a line yields no token exactly when every character is a delimiter (the empty line included) |
| Tokens.SplitJoin | src/tinysh.c:32-52 | round trip: words laid out with any runs of delimiters around and between them tokenize back to exactly those words, in order |
| Tokens.SplitDecomposes | src/tinysh.c:32-52 | every line is its tokens laid out with runs of delimiters, so no character is lost or invented |
| Tokens.SplitCharacterization | src/tinysh.c:32-52 | a line yields the words `words` if and only if it is a layout of `words` with delimiter runs |
| Tokens.CollapseExample | src/tinysh.c:14 | "  a   b\tc\n" yields exactly a, b, c |
| Tokenizer.Capacity | src/tinysh.c:44-46 | the buffer size for a token count is a positive multiple of 64 that exceeds the count by at most 64, so the slot at the count exists |
| Tokenizer.CapacityStep | src/tinysh.c:44-46 | storing one more token grows the capacity by exactly 64 when the count reaches the capacity, and leaves it unchanged otherwise |
| Tokenizer.CapacityMonotone | src/tinysh.c:44-46 | the capacity never shrinks as tokens are added |
| Tokenizer.NullTerminatedUnique | src/tinysh.c:50 | a buffer holds at most one NULL-terminated token sequence: the sentinel delimits the vector |
| Tokenizer.SkipDelims | src/tinysh.c:39 | returns the first index at or after the start that holds no delimiter, with only delimiters skipped |
| Tokenizer.ScanWord | src/tinysh.c:39 | returns the end of the maximal delimiter-free run from the start |
| Tokenizer.NextToken | src/tinysh.c:39-48 | one strtok call: the token found is the first word of the rest of the line and the later words are those after it; no token is found exactly when no word remains |
| Tokenizer.SplitResumesAfterDelim | src/tinysh.c:48 | resuming after the delimiter that strtok overwrote loses no word |
| Tokenizer.Realloc | src/tinysh.c:20-30 | fails exactly when more slots are requested than the allocator grants; otherwise returns a fresh buffer of the requested size that starts with the old entries |
| Tokenizer.Append | src/tinysh.c:41-47 | stores the token at the current count and keeps every earlier entry; the buffer afterwards has the capacity for the new count, grown by 64 only when full; fails exactly when that capacity exceeds the allocator's limit |
| Tokenizer.StoreTokens | src/tinysh.c:34-49 | the strtok loop stores the line's words in order in a fresh buffer whose size is the capacity for the word count, and fails exactly when that capacity exceeds the allocator's limit |
| Tokenizer.Tokenize | src/tinysh.c:32-52 | fails exactly when the buffer for the line's word count exceeds the allocator's limit; otherwise the buffer has that capacity, holds the words of the line in order, and holds the NULL sentinel at index = word count; up to the sentinel the buffer is exactly the argument vector of the line's words |
| Tokenizer.ReadArguments | src/tinysh.c:60 | reading a NULL-terminated buffer up to its sentinel recovers exactly the stored words |
| Shell.Route | src/tinysh.c:96-98 | dispatch table: no words is skipped; exactly `cd` alone is a missing path; `cd` followed by a word changes to that word; any other first word (compared exactly) runs the whole vector externally |
| Shell.Iteration | src/tinysh.c:88-101 | the loop body terminates exactly at end of input; records a history entry exactly for a non-empty line, and records it first; an exit is with status -1 and follows nothing but the history entry; at most one action follows the entry |
| Shell.IterationAsWritten | src/tinysh.c:90-98 | the code without NULL checks is undefined exactly at end of input, on a non-empty line without words, and on any non-empty line when the unchecked first malloc of 64 slots fails; when defined it still records the line first |
| Shell.Step | src/tinysh.c:88-101 | one loop iteration run on the token buffer has exactly the outcome of the iteration described on words (history, dispatch, exit status) |
| Shell.NothingRunsWithoutWords | src/tinysh.c:91-96 | an empty line is skipped without being recorded; a non-empty line of delimiters is only recorded; neither changes directory, runs a program or exits |
| Shell.CdChangesDirectory | src/tinysh.c:96-97 | any line whose first word is exactly `cd` followed by a path records the line and changes to that path, whatever the spacing, with later words ignored; nothing is executed |
| Shell.CdWithoutPathExits | src/tinysh.c:73-74 | `cd` with no path records the line and exits with status -1 without changing directory |
| Shell.OtherCommandsExecute | src/tinysh.c:98 | any other first word runs an external program whose argument vector is exactly the line's words |
| Shell.AllocFailureExits | src/tinysh.c:24-27 | once the first 64-slot buffer exists, a non-empty line whose words need a larger buffer than the allocator grants is recorded, and the failed reallocation then exits the shell with status -1; nothing is dispatched |
| Shell.UpperCaseCdIsExternal | src/tinysh.c:96 | the comparison with `cd` is case-sensitive: "CD /tmp" runs the external program CD |
| Shell.Session | src/tinysh.c:88-102 | the loop consumes no input after it stops; it is terminated exactly when the last input consumed is end of input, and none before it is; it exits only with -1; a session still prompting has consumed the whole script |
| Shell.SessionStopsAtFirstStop | src/tinysh.c:88-102 | the loop stops at the first iteration that does not leave the shell prompting: every earlier iteration left it prompting, a stopped session has consumed at least one input, and whenever anything was consumed the session's final status is the status of the last consumed iteration (so a script ending in `cd` alone ends exited, not prompting) |
| Shell.Run | src/tinysh.c:88-102 | the imperative loop over a script of readline results produces exactly the session's effects, final status and consumed count |
| Shell.IterationRecordsLine | src/tinysh.c:91-93 | an iteration adds its line to the history exactly when the line is non-empty |
| Shell.HistoryHoldsNonEmptyLines | src/tinysh.c:91-93 | over a whole session, the history is exactly the non-empty lines read, in order, including those whose command then exits |
| Shell.AsWrittenDiffersOnlyWithoutWords | src/tinysh.c:90-96 | the unguarded loop body is undefined exactly at end of input and on non-empty lines made only of delimiters; everywhere else it agrees with the guarded iteration |
| Shell.BlankLineIsUndefined | src/tinysh.c:96 | on the line " " the unguarded code passes the NULL sentinel to strcmp, while the guarded iteration only records the line |
| Shell.EndOfInputIsUndefined | src/tinysh.c:90-91 | at end of input the unguarded code passes readline's NULL to strcmp, while the guarded iteration terminates |

## Left out

- fork, execvp and waitpid (src/tinysh.c:54-70) are reduced to an `Execute(argv)` effect. Nothing about processes is modelled: the child's image replacement, the "execution error" message and `exit(-1)` in the child, the parent's wait, and a failed fork (pid -1 passed to waitpid). These are operating-system calls.
- chdir and perror (src/tinysh.c:76-78) are reduced to a `ChangeDirectory(path)` effect. Whether the directory exists, and the working directory itself, are not modelled, because they belong to the operating system.
- readline and add_history come from the editline library. Their results form a finite script `seq<Input>`, and recording a line is an effect.
- The banner printed with puts and the messages written to stderr are output only and are not modelled.
- malloc and free are not modelled as memory: memory release and the leaked line on the `continue` for an empty line are not modelled.
- Tokenizer.Tokenize: the tokens are copies of the words rather than pointers into the line. strtok's in-place writes of '\0' over delimiters and the aliasing between the tokens and the line are not modelled.
- Tokenizer.Tokenize: the initial malloc of 64 slots is not checked by the shell. Its success is the precondition `TokenBufSize <= maxSlots` of the tokenizer and of the guarded loop; `IterationAsWritten` treats its failure as undefined behaviour (a write through NULL at src/tinysh.c:41 or :50).
- Tokenizer.Tokenize: slots past the sentinel are uninitialised in C. The contract says nothing about them.
- Tokenizer.Realloc: does not model the `int` overflow of `bufsize * sizeof(char*)` once the buffer reaches 2^28 slots. Sizes are unbounded naturals, because a line with that many tokens is far beyond what readline is used for.
- Shell.Run: `while (RUNNING)` never ends in C. It is modelled on a finite script, and a session whose script runs out while it is still prompting simply stops.
- Strings are sequences of Unicode characters and may hold '\0', whereas the C code works on NUL-terminated byte strings. On UTF-8 input the splitting agrees, because all five delimiters are ASCII. Embedded NUL bytes, which would end the C string early, are not modelled.
- Shell.Iteration: when the allocator grants fewer than 64 slots, the pure loop body (and so Shell.Session) treats the failed first malloc of src/tinysh.c:36 as an allocation-error exit with status -1. The C code does not check that malloc and writes through NULL at :41 or :50. `IterationAsWritten` models that as undefined, and `Step`, `Run` and the tokenizer require the first malloc to succeed.
- Builtins that get or set environment variables are not modelled: src/tinysh.c defines only `cd`.
- The child's exit status is not propagated: `tsh_execute` ignores it and returns 0, and the model follows that code.

## Findings

| source | as written | input that shows it | evidently intended | confidence | as-written member | corrected member |
|---|---|---|---|---|---|---|
| src/tinysh.c:96 | `strcmp(tokens[0], "cd")` is applied to the first slot with no check for the NULL sentinel | the line " " (one space): no token is found, tokens[0] is NULL, and strcmp reads a NULL pointer | a line with no words is recorded and then skipped | not executed | Shell.BlankLineIsUndefined | Shell.NothingRunsWithoutWords |
| src/tinysh.c:90-91 | `strcmp(input, "")` is applied to readline's result with no check for NULL | end of input (Ctrl-D on an empty prompt): readline returns NULL and strcmp reads it | the loop stops at end of input | not executed | Shell.EndOfInputIsUndefined | Shell.Session |
