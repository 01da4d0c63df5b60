# lsh: a verified model of the shell's sequential core

`lsh` is a small Unix shell written in C (`code/lsh.c`). It reads a line, trims it,
has it parsed into a `Command` that holds a reversed linked list of `Pgm` nodes,
prints that command, and runs it. `exit` and `cd` are handled as built-ins;
anything else becomes a pipeline of forked children joined by pipes.

This project models the parts of that file that compute rather than call the
operating system, and proves what they promise:

- `stripwhite` (module `CStrings`). This is an in-place trim of a NUL-terminated
  buffer, modelled as a method on `array<char>`. There are two versions.
  - The corrected version is proved to leave exactly the trim of the old C string
    and to touch nothing past the old terminator.
  - The as-written version models C's `size_t` wrap-around explicitly. It is
    proved to read outside the buffer exactly when the line is empty or blank
    (see "## Findings").
- The parsed command and the two counting loops of `execute_cmd` (module
  `Commands`). These are `argc` over a NULL-terminated argument vector and
  `num_cmds` over the list.
- `print_pgm` and `print_cmd` (module `Printing`), as functions returning the
  printed text. It is proved that `print_pgm` prints the reversed list back in
  the order the pipeline was typed, one line per program.
- The built-in dispatch of `execute_cmd` and the older `check_built_ins`
  (module `Builtins`).
  - The working directory and `HOME` are an abstract state.
  - The dispatch looks only at the list head, which is the last stage as typed.
  - The `cd`/`exit` branches of `check_built_ins` cannot be reached.
- The pipe-slot arithmetic (module `Wiring`), as pure functions of the list
  index `k` and the stage count `n`.
  - Every slot is in bounds.
  - The pipes form a chain.
  - When every `fork()` succeeds (`Shell.AllSucceed`), the parent's `close`
    calls over a whole launch are a permutation of all `2(n - 1)` slots. A
    failed `fork()` returns before the parent's `close` calls (code/lsh.c:238-242
    come before 266-269), so that stage's slots stay open in the shell.
- The `pipefds` array, pipe creation and the recursive `execute_pipeline`
  (module `Pipeline`). The class `PipeFds` holds the descriptor array and a
  per-slot count of the parent's `close` calls.
- `execute_cmd` put together (module `Shell`). The methods `ExecuteCmd` and
  `LaunchPipeline` return what one call does: the dispatch outcome, the return
  value or exit status, the children forked with their wiring, the per-slot
  closes, and the number of `wait` calls.

The outcome of each `pipe()` and `fork()` call is a parameter (`pipeOk`,
`forkOk`). `chdir` succeeds exactly for the paths in the abstract
`Os.enterable`. `getenv("HOME")` is `Os.home`. A NULL pointer in an argument
vector is `None`.

Where the code and the design description disagree, the model follows the code:

- **Built-ins are recognised on the head of the `Pgm` list.** That is the last
  stage as typed, so `ls | cd /tmp` runs the built-in `cd`, and
  `cd /tmp | cat` goes to the pipeline code (`Builtins.HeadOnly`).
- **A failed `pipe()` ends the whole shell with status 1.** It is not a
  per-command error.

## Model

| member | source | states |
|---|---|---|
| CStrings.IsSpace | code/lsh.c:282-293 | the `isspace` test of both loops: a whitespace character is never the terminator NUL, so the leading skip stops at the terminator at the latest |
| CStrings.StrLen | code/lsh.c:288-292 | `strlen`: the index of the first NUL; no NUL before it |
| CStrings.Trim | code/lsh.c:280-298 | the trim starts where the leading whitespace run ends, leaves only whitespace after it, has no whitespace at either end, and is empty exactly when the string is blank |
| CStrings.TrimUnique | code/lsh.c:280-298 | any split into blank prefix, trimmed middle and blank suffix has the trim as its middle: exactly the maximal leading and trailing runs are removed, the interior is kept |
| CStrings.TrimIdempotent | code/lsh.c:282-298 | trimming twice is the same as trimming once |
| CStrings.TrimOfTrimmed | code/lsh.c:282-298 | a string with no whitespace at either end is its own trim |
| CStrings.MemMoveDown | code/lsh.c:289 | `memmove` to the front of the buffer: the `count` characters at `src` come first, the rest of the buffer is unchanged |
| CStrings.MoveFront | code/lsh.c:289 | the buffer after moving the characters `lead .. n0` to the front: those characters, in order, are at `0 .. n0 - lead`, and the length is unchanged |
| CStrings.Shifted | code/lsh.c:289 | the buffer after `memmove(string, string + i, strlen(string + i) + 1)`: the length is unchanged and the moved terminator lands at `strlen - i` |
| CStrings.ShiftDown | code/lsh.c:286-289 | after the move the buffer is the old one with the C string from `lead` on, terminator included, at the front |
| CStrings.ShiftedShape | code/lsh.c:286-289 | after the move, the C string is the old one without its first `lead` characters; it still has a terminator; bytes past the new terminator are unchanged |
| CStrings.TrimAfterLead | code/lsh.c:280-289 | dropping the leading whitespace run first does not change the trim |
| CStrings.SkipLeadingSpace | code/lsh.c:280-284 | the first loop stops at the end of the leading whitespace run, never past the terminator |
| CStrings.ScanBackOverSpace | code/lsh.c:293-296 | the backward loop stops at index 0 or at a non-space, with only whitespace between the stop and the start |
| CStrings.FinishTrim | code/lsh.c:292-298 | writing NUL just after the stop of the backward scan leaves the trim of a C string that does not start with whitespace |
| CStrings.TrimEnd | code/lsh.c:292-298 | the corrected trailing trim: for a C string that is empty or does not start with whitespace, the result is its trim; every byte other than the one at the new terminator position keeps its old value |
| CStrings.StripWhite | code/lsh.c:278-299 | corrected `stripwhite`: afterwards the C string is the trim of the old one, and nothing from the old terminator on changes |
| CStrings.SizeSub | code/lsh.c:292 | `size_t` subtraction: the plain difference when it is non-negative, SIZE_MAX + 1 minus the shortfall otherwise |
| CStrings.ScanBack | code/lsh.c:293-296 | the backward scan as written: it succeeds from any in-bounds start, and fails reading at exactly its start when that is out of bounds |
| CStrings.TrimEndAsWritten | code/lsh.c:292-298 | the trailing trim as written reads out of bounds exactly when the C string is empty, at index SIZE_MAX; otherwise it leaves the trim |
| CStrings.StripWhiteAsWritten | code/lsh.c:278-299 | `stripwhite` as written on a buffer value: the move, then `TrimEndAsWritten`; a result keeps the buffer's length (its contents and its faults are stated by `StripWhiteAsWrittenFaults`) |
| CStrings.StripWhiteAsWrittenFaults | code/lsh.c:287-298 | `stripwhite` as written faults exactly when the line is blank (the empty line included), at index SIZE_MAX; otherwise it leaves the trim |
| CStrings.EmptyLineFaults | code/lsh.c:292-293 | the empty line makes `stripwhite` as written read at index SIZE_MAX |
| Commands.Words | code/lsh.c:119-122 | the words of an argument vector are its strings before the first NULL |
| Commands.Stages | code/lsh.c:114-117 | the stages in typed order: the list reversed |
| Commands.StagesOfNode | code/lsh.c:114-117 | the head node is the last stage as typed |
| Commands.ToSeqOfNode | code/lsh.c:232-233 | the list of a node is its head followed by the list of its `next` |
| Commands.CountArgs | code/lsh.c:156-158 | `argc` is the index of the first NULL, which is the number of words |
| Commands.CountCmds | code/lsh.c:199-201 | `num_cmds` is the length of the list, at least 1 for a non-empty list |
| Printing.WordsText | code/lsh.c:119-122 | the words loop prints nothing exactly for an empty vector; otherwise it starts with the first word and ends with the space printed after the last |
| Printing.PgmLine | code/lsh.c:118-123 | the line for one program starts with the indented `* [ ` and ends with `]` and a newline |
| Printing.PrintPgm | code/lsh.c:104-125 | `print_pgm` prints nothing exactly for NULL; for a node the output ends with the head's line, which is printed after the recursive call |
| Printing.CmdHeader | code/lsh.c:90-95 | the header of `print_cmd` starts with the rule line and ends with `Pgms:` and a newline |
| Printing.PrintCmd | code/lsh.c:88-98 | `print_cmd` starts and ends with the rule line |
| Printing.RenderAppend | code/lsh.c:117-123 | rendering a concatenation of stage lists is rendering each list and concatenating |
| Printing.PrintPgmInTypedOrder | code/lsh.c:104-125 | `print_pgm` prints one line per program in typed order (the reverse of list order); a NULL list prints nothing |
| Printing.PgmLineNewlines | code/lsh.c:118-123 | the line printed for one program holds exactly one newline when its words hold none |
| Printing.PrintPgmLines | code/lsh.c:104-125 | `print_pgm` prints exactly as many lines as the list has nodes |
| Printing.PrintCmdLayout | code/lsh.c:88-98 | `print_cmd` prints the fixed header, then the programs in typed order, then the closing rule |
| Builtins.Chdir | code/lsh.c:185 | `chdir` succeeds exactly for an enterable, non-NULL path, and then changes only the working directory |
| Builtins.ReturnValue | code/lsh.c:150-191 | -1 for a NULL command, a refused `exit`/`cd` or a failed `chdir`; 0 for a successful `cd` |
| Builtins.Dispatch | code/lsh.c:150-191 | only a successful `cd` changes the state, and only its working directory, to an enterable path; a command is passed on to the pipeline code exactly when its head's name is neither `exit` nor `cd`; the outcome is NoCommand exactly for NULL |
| Builtins.ExitRule | code/lsh.c:160-170 | `exit` with arguments is refused and returns -1; alone it ends the shell |
| Builtins.CdRule | code/lsh.c:172-191 | `cd` with two or more arguments is refused without `chdir`; otherwise it targets the argument, or HOME when there is none; the directory changes exactly when the target can be entered |
| Builtins.HeadOnly | code/lsh.c:155-158 | commands whose list heads agree dispatch alike, whatever the other stages, redirections and background flag |
| Builtins.CheckBuiltIns | code/lsh.c:127-146 | `check_built_ins` returns 1 and leaves the state unchanged exactly when the name is neither `cd` nor `exit` |
| Builtins.CheckBuiltInsDead | code/lsh.c:193-195 | called from `execute_cmd` after the dispatch, `check_built_ins` always returns 1: its `cd` and `exit` branches cannot run |
| Wiring.ReadSlot | code/lsh.c:248-251 | a stage reads a slot exactly when it is not the first stage typed; the slot is the read end of its own pipe, in bounds |
| Wiring.WriteSlot | code/lsh.c:254-257 | a stage writes a slot exactly when it is not the last stage typed; the slot is the write end of pipe `k - 1`, in bounds |
| Wiring.UsedByExactlyOne | code/lsh.c:248-257 | every slot the wiring uses lies in `[0, 2(n - 1))`, and each such slot is used by exactly one stage, `SlotUser(s)` |
| Wiring.Chain | code/lsh.c:248-257 | pipe `j` is read by exactly stage `j` and written by exactly stage `j + 1`; stage 0 writes no pipe and stage `n - 1` reads none |
| Wiring.TypedOrderFlow | code/lsh.c:248-257 | each stage as typed writes the pipe the next typed stage reads |
| Wiring.ParentCloses | code/lsh.c:266-269 | the slots the parent closes after forking stage `k` are exactly the slots that stage uses |
| Wiring.ClosesFrom | code/lsh.c:232-269 | the parent's closes while stages `k ..` are forked: every slot closed is at or after `FirstSlotFrom(k)` and inside `pipefds` |
| Wiring.ClosesFromCount | code/lsh.c:232-269 | the closes made while stages `k ..` are forked name each slot from `FirstSlotFrom(k)` to the end once and no other slot |
| Wiring.ParentClosesEverySlotOnce | code/lsh.c:227-269 | over the whole pipeline the parent's closes are a permutation of the slots `0 .. 2(n - 1) - 1` |
| Pipeline.CreatedFd | code/lsh.c:207 | `pipe(pipefds + 2j)` puts the read end of pipe `j` at `2j` and its write end at `2j + 1` |
| Pipeline.FirstFailureFrom | code/lsh.c:205-211 | the first failing `pipe()` call: every earlier call succeeded |
| Pipeline.Forks | code/lsh.c:235-241 | the number of successful forks among stages `k .. n - 1` is at most `n - k`, and is `n - k` only when every one of them succeeded |
| Pipeline.AllForksSucceed | code/lsh.c:235-241 | when no `fork()` fails, every stage is forked |
| Pipeline.PipeFds.constructor | code/lsh.c:204 | `pipefds` has `2(n - 1)` slots, none set and none closed |
| Pipeline.PipeFds.CreatePipes | code/lsh.c:204-212 | the creation loop succeeds exactly when no `pipe()` call fails; the pipes made before the first failure hold their two ends, and the other slots are unchanged |
| Pipeline.ChildAt | code/lsh.c:244-257 | the child for list index `k` runs the program at `k`; it has a `dup2` on standard input exactly when it is not the first stage typed, and on standard output exactly when it is not the last |
| Pipeline.UsedCloses | code/lsh.c:266-269 | the closes made so far on the slots of stage `k` are zero exactly when each of those slots is still open in the shell |
| Pipeline.UsedClosesUntouched | code/lsh.c:232-269 | closes on other stages' slots do not change `UsedCloses` for stage `k` |
| Pipeline.ClosedFromStep | code/lsh.c:232-269 | one step of the recursion: the later stages' closes, then stage `k`'s closes when its fork succeeded and none when it failed, are the closes for stages `k ..` |
| Pipeline.LaunchedAppend | code/lsh.c:233-269 | forking the head after the stages behind it keeps every child wired by `ChildAt` and in falling list index |
| Pipeline.PipeFds.CloseUsed | code/lsh.c:263-269 | after a successful fork the parent closes once more exactly the slots the forked stage uses |
| Pipeline.PipeFds.ForkStage | code/lsh.c:235-269 | a successful fork of stage `k`: the child `ChildAt` builds, recording the closes made so far on its slots, and then one more close on exactly those slots |
| Pipeline.PipeFds.ExecutePipeline | code/lsh.c:226-272 | each slot is closed once more exactly when its one user is among stages `k ..` and its `fork()` succeeded; one child per successful fork, in fork order (falling list index), each wired by `ChildAt` and recording the closes its slots had had when it was forked |
| Shell.ChildWiring | code/lsh.c:244-257 | once all pipes exist, a child reads from the read end of pipe `k` and writes to the write end of pipe `k - 1`, as its position allows |
| Shell.LaunchPipeline | code/lsh.c:198-222 | a failed `pipe()` ends the shell with status 1 before forking. Otherwise: one correctly wired child per successful fork, in typed order, whose pipe ends were all still open in the shell when it was forked; each slot closed once if its user was forked and never otherwise; `n` waits in the foreground and none in the background |
| Shell.AllSucceed | code/lsh.c:203-221 | when every `pipe()` and `fork()` succeeds, all stages run and every slot is closed exactly once |
| Shell.ExecuteCmd | code/lsh.c:148-224 | `execute_cmd`: built-ins and NULL as `Dispatch` says, with no process, pipe or wait. Other commands go through `LaunchPipeline` and return 0, unless the shell exited |

## Left out

- `fork`, `execvp`, `dup2`, `wait`, `signal` and the `pipe`/`close` system calls
  are operating-system effects. The model records only:
  - whether each `pipe()`/`fork()` call succeeds, as parameters;
  - what each child would `dup2`;
  - a per-slot count of the parent's `close` calls;
  - the number of `wait(NULL)` calls.
- What happens inside a child after the fork is not modelled: `execvp`, its
  failure path and `exit(1)`. The child closes no descriptors, so no child-side
  property is claimed.
- Input and output redirection: `rstdin` and `rstdout` are only printed, never
  used to run anything.
- Background processes: the code keeps no PIDs and reaps nothing; the model
  records that a background command makes no `wait` calls.
- `parse()` comes from `parse.h`, which is not part of this model. So are the
  `readline`/`add_history` loop of `main` and its `"\nexit\n"` on end of input:
  they are I/O and foreign code. `parse` is assumed to hand over a non-empty list
  whose head has a NULL-terminated argument vector naming a program, and whose
  words are all C strings with no NUL inside (`Builtins.WellFormed`,
  `Commands.CWords`).
- `getenv` and `chdir` are abstract (`Os.home`, `Os.enterable`). Path
  resolution, relative paths and `errno` are not modelled.
- Text written to standard error (`perror`, `fprintf(stderr, …)`) is not
  modelled. Only the outcome it goes with is kept.
- Pipeline.PipeFds.ExecutePipeline: does not model the -1 that
  `execute_pipeline` returns after a failed fork, because `execute_cmd` and the
  recursive call both ignore it. The effect is kept: the failed stage runs
  nothing and closes nothing.
- Shell.ExecuteCmd: does not model falling off the end of `execute_cmd` when
  `check_built_ins` returns 0, because that cannot happen
  (`Builtins.CheckBuiltInsDead`).
- Shell.ExecuteCmd: the `"\nexit\n"` that `exit` prints is not part of the
  result; only the exit status 0 is.
- `size_t` is taken to be 64 bits wide (`CStrings.SIZE_MAX`). On a 32-bit
  target the faulting index would be 2^32 - 1.
- `isspace` is the "C" locale's: space, `\t`, `\n`, `\v`, `\f`, `\r`.
- Printing.PrintPgmLines: requires that no word contains a newline, since a
  word that did would add lines of its own to the printout.

## Findings

| source | as written | input that shows it | evidently intended | confidence | as-written member | corrected member |
|---|---|---|---|---|---|---|
| code/lsh.c:292 | `i = strlen(string) - 1` is computed in `size_t`: it wraps to SIZE_MAX when the string is empty after the leading skip, and line 293 then reads `string[SIZE_MAX]` | the empty line `""`, or any line of only whitespace such as `"   "`; `main` passes every line to `stripwhite` (code/lsh.c:56) before it tests for blank | an empty or blank line is left as the empty string | not executed | CStrings.StripWhiteAsWrittenFaults | CStrings.StripWhite |
