# smallsh, modelled in Dafny

smallsh is a small Unix shell written in C (`smallsh.c`). On each cycle it
reads a line, splits it into words on spaces and newlines, and expands `$$`
to its own process id. From the words it builds a command: an argument
vector, optional `<` input and `>` output files, and a trailing `&` that asks
for the background. It then handles a blank line, a `#` comment, or one of
the built-ins `exit`, `cd` and `status`. Any other command is forked. The
child resets SIGINT (foreground only), redirects descriptors 0 and 1, and
calls `execvp`; the parent waits for a foreground child or records a
background one in its job table. SIGTSTP toggles foreground-only mode, in
which `&` is ignored.

The model is split into modules that follow the program:

- `Decimal`: the `%d` text of an integer (the pid string built by `sprintf`)
  and its inverse.
- `Expansion`: `$$` expansion. `Expand` is a pure left-to-right definition.
  `ExpandPid` is cmdPid's in-place loop over the `with_pid` character array,
  proved to compute `Expand`. The helpers model `strstr` (`FindMarker`),
  `strcpy` (`CopyString`), and the splice through the `store` buffer
  (`SpliceInPlace`).
- `Tokenizer`: `strtok(line, " \n")` as a function from a line to its tokens.
- `CommandLine`: the command builder as a pure function `Build` over the
  tokens, the foreground-only flag and the shell pid.
- `Builtins`: the dispatcher, the `cd` target and the `status` report.
- `ChildSetup`: what a forked child does before `execvp`. This is a plan of
  calls, and the run of a plan given what each call returns.
- `ShellState`: class `Shell`. It holds the state main and the SIGTSTP
  handler update in place: `f_flag`, the job table `processes[512]` with
  `pid_count`, `status`, the loop flag, `args_list[513]` and
  `with_pid[2048]`. Its `BuildCommand` method is main's token loop over
  those arrays, proved to return what `Build` describes.

The model abstracts these C-level effects as follows:

- The wait-status macros (`WIFEXITED`, `WEXITSTATUS`, `WIFSIGNALED`, and
  `WTERMSIG` for the corrected report) are a record of functions,
  `Builtins.WaitMacros`. No bit layout is assumed, except that one
  counterexample uses Linux's layout (`Builtins.LinuxWait`).
- `getpid()` and `getenv("HOME")` become parameters.
- The results of `waitpid`, `open`, `dup2` and `execvp` are also parameters.
- `kill` becomes a list of `Kill(pid, signal)` records.
- Printed lines become returned strings.

Several inputs make the C program behave in an undefined way. The model
turns each one into an explicit `CommandLine.BuildError`:

- a `<` or `>` with no word after it, which passes NULL to `strdup`;
- more than 512 arguments;
- a word holding `$$` whose expansion does not fit the 2048-character
  `with_pid` and `store` buffers.

## Model

| member | source | states |
|---|---|---|
| Decimal.Digits | smallsh.c:59-60 | the decimal text of a natural number is non-empty, all digits, and has no leading zero unless the number is 0 |
| Decimal.Show | smallsh.c:59-60 | `%d` text: non-empty, never contains `$`, digits with a leading `-` only for a negative number |
| Decimal.DigitsRoundTrip | smallsh.c:59-60 | reading the digits back gives the number |
| Decimal.ShowRoundTrip | smallsh.c:59-60 | `%d` text is a numeral and parses back to the same integer |
| Decimal.ShowInjective | smallsh.c:59-60 | two integers with the same `%d` text are equal, so distinct pids expand differently |
| Decimal.DigitsLength | smallsh.c:59 | a number below 10^k has at most k digits |
| Decimal.ShowFitsPidString | smallsh.c:59-60 | the text of any 32-bit pid has at most 11 characters, so it fits `pid_string[255]` |
| Expansion.Expand | smallsh.c:56-90 | the meaning of cmdPid: each `$$`, scanned left to right, becomes the pid text and the scan resumes after it; a word in which no replacement happens is returned unchanged |
| Expansion.PidText | smallsh.c:59-60 | the replacement text is non-empty and contains no `$` |
| Expansion.ExpandWithoutMarker | smallsh.c:69 | a word has no `$$` exactly when no replacement happens, and such a word is left unchanged |
| Expansion.ExpandLength | smallsh.c:72-87 | each replacement changes the length by the pid text's length minus 2 |
| Expansion.ExpandNeverShrinks | smallsh.c:72-87 | with a replacement of two or more characters the result is never shorter |
| Expansion.ExpandLeavesNoMarker | smallsh.c:69-89 | when the pid text has no `$`, no `$$` is left after expansion |
| Expansion.ExpandIdempotent | smallsh.c:56-90 | expanding an expanded word again changes nothing |
| Expansion.ExpandShowsReplacement | smallsh.c:72-87 | when a word holds `$$`, the whole pid text occurs in the result, at some position |
| Expansion.ExpandByMarkerIsIdentity | smallsh.c:72-87 | replacing each `$$` by `$$` gives back the word |
| Expansion.ExpandAtFirstMarker | smallsh.c:69-88 | the expansion is the text before the first `$$`, then the pid, then the expansion of the rest |
| Expansion.FindMarker | smallsh.c:69 | `strstr`: the first `$$` at or after the start position, or none at all |
| Expansion.CopyString | smallsh.c:302 | `strcpy`: the word followed by NUL, with the rest of the buffer unchanged |
| Expansion.Splice | smallsh.c:72-84 | `store` holds the prefix before the match, then the pid text, then the suffix after `$$` |
| Expansion.ExpandFromFirstMarker | smallsh.c:69-88 | continuing the scan from the first `$$` gives the same expansion |
| Expansion.ReplaceFirstMarker | smallsh.c:69-88 | one turn of the loop (splice at the first `$$` found, resume one past it) keeps the buffer on course to the expansion of the original word, and within the room the result needs |
| Expansion.SpliceInPlace | smallsh.c:72-87 | after copying `store` back, the buffer holds the spliced string followed by NUL |
| Expansion.FinishScan | smallsh.c:69 | when `strstr` finds nothing more, the buffer is the expansion of the original word |
| Expansion.ExpandPid | smallsh.c:56-90 | cmdPid: the NUL-terminated buffer afterwards is the expansion of the word that was there, for any number of `$$` |
| Tokenizer.WordLength | smallsh.c:265 | a token runs up to, but not including, the first space or newline |
| Tokenizer.Tokenize | smallsh.c:265 | every token is non-empty and holds no space or newline |
| Tokenizer.TokenizeKeepsContent | smallsh.c:265 | the tokens, concatenated, are the line with its spaces and newlines removed |
| Tokenizer.TokenizeBlank | smallsh.c:265 | no token exactly when the line is only spaces and newlines |
| Tokenizer.TokenizeAfterToken | smallsh.c:265 | a token followed by a delimiter or the line's end is split off whole |
| Tokenizer.WordLengthOfToken | smallsh.c:265 | a token followed by a delimiter is measured exactly |
| Tokenizer.TokenizeJoin | smallsh.c:265 | joining tokens with single spaces and splitting again gives the same tokens |
| CommandLine.ExpandToken | smallsh.c:300-313 | a word without `$$` is kept as it is; one with `$$` becomes its expansion, and holds no `$$` after; an error exactly when the expansion does not fit `with_pid` |
| CommandLine.Finish | smallsh.c:323-344 | a trailing `&` is removed from the arguments and nothing else is; background exactly when there was one and foreground-only mode is off; the files are unchanged |
| CommandLine.AmpersandIndexAsWritten | smallsh.c:323-326 | the index checked for `&` is a valid argument index exactly when there is an argument |
| CommandLine.Collect | smallsh.c:271-322 | the token loop: `<`/`>` set the files from the next token, other tokens are expanded and appended; arguments are only ever appended, and never more than 512 |
| CommandLine.Build | smallsh.c:270-344 | a command is never in the background while foreground-only mode is on |
| CommandLine.CollectAppend | smallsh.c:271-320 | a line read in two parts is collected as the second part continuing from the first |
| CommandLine.RedirectionTakesNextToken | smallsh.c:274-296 | `<` or `>` takes the following token verbatim as its file, and a later one replaces an earlier one |
| CommandLine.WordIsAppended | smallsh.c:298-319 | any other token is expanded and appended after the earlier arguments |
| CommandLine.CollectPlainWords | smallsh.c:298-319 | a line of plain words gives all of them, each expanded, in order |
| CommandLine.OperatorsNeverArguments | smallsh.c:274-296 | a bare `<` or `>` never becomes an argument |
| CommandLine.TrailingAmpersand | smallsh.c:323-338 | a final `&` requests the background exactly when foreground-only mode is off, and is dropped either way |
| CommandLine.AmpersandBeforeWord | smallsh.c:323-326 | an `&` that is not last is an ordinary argument and never requests the background |
| Builtins.Dispatch | smallsh.c:346-380 | blank, comment, `exit`, `cd`, `status` and external, each chosen exactly when its condition holds, in that priority |
| Builtins.CdTarget | smallsh.c:129-141 | `cd` alone goes to HOME; otherwise it goes to the first argument |
| Builtins.StatusReportAsWritten | smallsh.c:157-178 | cmdStatus as written: the exit value exactly when the status is a normal exit, otherwise the raw status word |
| Builtins.StatusReport | smallsh.c:152-178 | cmdStatus as its comments describe it: the exit value exactly when the status is a normal exit, otherwise the terminating signal (`WTERMSIG`) |
| Builtins.LinuxReportsSignalNumber | smallsh.c:168-173 | with Linux's layout, a child killed by a signal gets that signal's number, between 1 and 126, reported |
| Builtins.CoreDumpPrintsRawStatus | smallsh.c:168-173 | status 139 (SIGSEGV with a core dump on Linux): the code as written reports 139, the intended report is signal 11 |
| Builtins.ForegroundReportAsWritten | smallsh.c:588-598 | the parent's line after a foreground wait, as written: printed exactly when WIFSIGNALED holds, and it is cmdStatus's as-written report of the raw status word |
| Builtins.ForegroundReport | smallsh.c:588-598 | the same line as the comments at 590-591 intend: printed exactly when WIFSIGNALED holds, and it is cmdStatus's corrected report naming the terminating signal |
| Builtins.ForegroundCoreDumpPrintsRawStatus | smallsh.c:588-598 | on status 139 the parent as written prints `terminated by signal 139`, the intended line (the one `Shell.ParentAfterFork` prints) is `terminated by signal 11` |
| Builtins.ReportText | smallsh.c:161-177 | the printed line: it ends in a newline and its first letter tells an exit value (`e`) from a signal (`t`) |
| Builtins.ReportTextInjective | smallsh.c:161-177 | two different reports never print the same line |
| Builtins.CdFailureText | smallsh.c:146-149 | the `cd` failure line starts with the target it tried and ends in a newline |
| Builtins.CdFailureTextInjective | smallsh.c:146-149 | different targets give different failure lines |
| ChildSetup.TargetFd | smallsh.c:443-551 | input goes to descriptor 0 and output to descriptor 1 |
| ChildSetup.Flags | smallsh.c:426-538 | input is opened read-only; a named output file write-only, created and truncated; `/dev/null` for output write-only |
| ChildSetup.Mode | smallsh.c:463 | a creation mode is passed only when opening a named output file, and it is octal 0644 |
| ChildSetup.Setup | smallsh.c:413-560 | the steps before exec contain no exec |
| ChildSetup.Plan | smallsh.c:413-578 | every plan ends with its single `execvp` of the argument vector |
| ChildSetup.PlanCalls | smallsh.c:422-560 | the exact `open`/`dup2` calls in order: the input file read-only onto 0; the output file write-only, created, truncated, mode 0644 onto 1; in the background `/dev/null` read-only onto 0 and write-only onto 1 for each side left unnamed |
| ChildSetup.CallsAppend | smallsh.c:422-560 | the calls of two step lists in a row are the calls of each, in order |
| ChildSetup.PlanResetsSigintInForeground | smallsh.c:413-419 | SIGINT is reset exactly in a foreground child, and first |
| ChildSetup.PlanUsesNullDevice | smallsh.c:496-560 | `/dev/null` is opened for a side exactly when the command is in the background and names no file for that side |
| ChildSetup.PlanOpensNamedFiles | smallsh.c:422-493 | a named file is opened for a side exactly when the command gave that file for that side |
| ChildSetup.FailureText | smallsh.c:432-570 | each failing call prints its own one-line message (the nine `printf`s before `exit(1)`) |
| ChildSetup.Run | smallsh.c:413-578 | a child either runs the plan's argument vector or exits with status 1 |
| ChildSetup.RunAppliesAll | smallsh.c:413-578 | when every call succeeds, the program runs in the state all the steps before exec set up |
| ChildSetup.PlanSetsUpIntended | smallsh.c:410-578 | when every call succeeds, the program runs with SIGINT at its default exactly in the foreground, the named files on 0 and 1, and `/dev/null` on each side a background command left unnamed |
| ChildSetup.SetupState | smallsh.c:413-560 | applying the setup steps to the inherited state gives that intended state |
| ChildSetup.ApplyAllAppend | smallsh.c:413-560 | applying two step lists in a row is applying their concatenation |
| ChildSetup.FirstFailureExits | smallsh.c:430-578 | the first failing open, dup2 or execvp ends the child with status 1 and that call's own message, printed to wherever the earlier steps pointed descriptor 1 |
| ChildSetup.ExecFailureMessageGoesToSetupOutput | smallsh.c:496-578 | when only `execvp` fails, its message goes to the output the setup arranged: the named file, `/dev/null` for a background command without one, the shell's output otherwise |
| ShellState.Argv | smallsh.c:317-344 | the vector handed to `execvp` is the arguments followed by NULL |
| ShellState.Shell.constructor | smallsh.c:11-240 | the shell starts in normal mode with an empty job table, status 0 and the loop running |
| ShellState.Shell.HandleSigtstp | smallsh.c:17-50 | the flag flips between 0 and 1, so two toggles restore it; the notice for the new mode is written out in full, because the byte counts 32 and 52 are the notices' lengths |
| ShellState.Shell.TerminateJobs | smallsh.c:101-110 | SIGTERM goes to every recorded job, once each, in recording order |
| ShellState.Shell.ExitBuiltin | smallsh.c:97-114 | every recorded job gets SIGTERM, then the shell exits with status 0 |
| ShellState.Shell.ForkFailed | smallsh.c:383-407 | the error message, SIGTERM to every job, status 1, and the main loop stops |
| ShellState.Shell.RecordJob | smallsh.c:609-618 | the new pid is appended to the job table and reported |
| ShellState.Shell.ParentAfterFork | smallsh.c:582-620 | foreground: status is the waited status, and its output is `Builtins.ForegroundReport`, which reports an abnormal end with its terminating signal (the corrected half of the second finding); background: status changes only if the child already ended, the pid is recorded and reported; the job table is otherwise unchanged |
| ShellState.Shell.ExpandWord | smallsh.c:300-313 | the word stored for a token is `ExpandToken`'s: the token itself, or its expansion in `with_pid`, or an error when it does not fit |
| ShellState.Shell.FinishArgs | smallsh.c:323-344 | the command is `Finish`'s, and `args_list` holds its argument vector followed by NULL, with the cleared `&` slot NULL too |
| ShellState.Shell.BuildCommand | smallsh.c:270-344 | the command built in `args_list` is `Build`'s, and `args_list` holds its NULL-terminated argument vector |
| ShellState.Shell.ClearArgs | smallsh.c:623-634 | `args_list[0..args_count]` are NULL again and later slots are untouched |
| ShellState.BlankLineDoesNothing | smallsh.c:346-351 | a blank line, or a line that is only `&`, dispatches as blank |
| ShellState.BlankLineReadsBeforeArgs | smallsh.c:323-326 | on a blank line nothing is collected and the index main checks for `&` is -1 |

## Left out

- The system calls `fork`, `execvp`, `open`, `dup2`, `close`, `kill`, `chdir`, `sigaction`, `waitpid` and `getpid` are not performed. Their inputs are modelled as plans and records, and their results as parameters.
- Reading the line with `getline` (including `clearerr` at end of input), the `: ` prompt and `fflush` are I/O and are not modelled. The model starts from the line's text.
- The reaping loop after each cycle (`waitpid(-1, &status, WNOHANG)`, with its messages) is not modelled. It also overwrites `status`, which `Shell.ParentAfterFork` therefore does not cover.
- The bit layout of a wait status is not modelled. `WIFEXITED`, `WEXITSTATUS`, `WIFSIGNALED` and `WTERMSIG` are abstract functions.
- Memory management (`malloc`, `strdup`, `free`) is not modelled. Strings are values.
- cmdPid's `store` buffer is a value computed by `Splice`, not a second array.
- Builtins.CdTarget: the `chdir` call and its failure message are outside the contract. `Builtins.CdFailureText` gives the message text.
- A NUL character inside an input line, which would end the C string early, is not modelled. Tokens are strings without NUL.
- ShellState.Shell.ParentAfterFork: the waited status and the WNOHANG result are inputs, not derived from the child's run.
- ShellState.Shell.RecordJob: requires a free slot in `processes[512]`. The C code writes past the array on the 513th job, and the model does not describe that.
- ShellState.Shell.constructor: `args_list` starts as all NULL. In the C code it is uninitialised, but only slots written earlier in the same cycle are ever read.
- CommandLine.Build: a missing redirection operand, more than 512 arguments, or an expansion too long for `with_pid` return a `BuildError`. In the C code these are undefined behaviour.
- A Dafny `char` stands for one byte of a C string. Limits such as the 2048 of `FitsExpandBuffer` count bytes in C; multi-byte characters are not modelled.
- ChildSetup.Run: the message of a failing call is recorded with where descriptor 1 points at that moment, but it is not modelled as written to that file; `printf` buffering and `fflush` are left out.
- Signal delivery and its timing (SIGTSTP arriving mid-cycle, SIGINT reaching children) are not modelled. `Shell.HandleSigtstp` is an ordinary method.

## Findings

| source | as written | input that shows it | evidently intended | confidence | as-written member | corrected member |
|---|---|---|---|---|---|---|
| smallsh.c:323-326 | after the token loop `args_count -= 1` and `args_list[args_count]` is read to look for `&`, with no check that any argument was stored | a blank line (`""` or `"  \n"`): `args_count` becomes -1 and `args_list[-1]` is read before the array | look for a trailing `&` only when there is at least one argument | not executed | CommandLine.AmpersandIndexAsWritten, ShellState.BlankLineReadsBeforeArgs | CommandLine.Finish, ShellState.Shell.BuildCommand, ShellState.BlankLineDoesNothing |
| smallsh.c:168-177 | cmdStatus prints `terminated by signal %d` with the raw `status` word (line 173), and the parent does the same after a foreground wait (line 594) | a child killed by SIGSEGV that dumps core: on Linux its status is 139, so the shell prints `terminated by signal 139` | print the terminating signal, `WTERMSIG(status)`, as the comments at lines 152-155 and 169-170 and 590-591 say | not executed | Builtins.StatusReportAsWritten, Builtins.CoreDumpPrintsRawStatus, Builtins.ForegroundReportAsWritten, Builtins.ForegroundCoreDumpPrintsRawStatus | Builtins.StatusReport, Builtins.LinuxReportsSignalNumber, Builtins.ForegroundReport, ShellState.Shell.ParentAfterFork |
