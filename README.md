# smallsh in Dafny

A model of the core of `smallsh`, a small Unix shell written in C. The shell
reads one line at a time at a `: ` prompt. Each line goes through these steps:

- Lines that start with a newline or `#` are ignored.
- Every `$$` becomes the shell's process id.
- The line is split into words at spaces and newlines.
- Three commands are built in: `exit`, `cd` and `status`.
- Every other command runs in a forked child.
  - `> file` and `< file` redirect the child's standard output and input.
  - A trailing `&` runs the child in the background, with standard input on
    `/dev/null`.
  - In foreground-only mode, which SIGTSTP (Ctrl-Z) toggles, that `&` is
    ignored.

The modules follow the C file's functions:

| module | models |
|---|---|
| `Decimal` | `%i` rendering of numbers and the digit-counting loop of `expand$$` |
| `Expansion` | `expand$$`: `Expand` is the specification; the class `LineBuffer` is the 2048-character `userInput` buffer rewritten in place |
| `Tokenizer` | the `strtok(" \n")` splitting of `parseInput`, as the function `Tokens` |
| `Redirection` | the stripping and planning done by `ioRedirection`, and the child's set-up before `execvp` (`ChildSetup`), as functions |
| `ArgArrays` | the class `ArgArray`: `argArray[MAX_ARGS]` with `numArgs`, and `resetArgArray`, `parseInput`, `trimArray` and `ioRedirection` on it |
| `Prompt` | the decisions of `commandPrompt` on one line (`ProcessLine`), the `status` text and the SIGTSTP notices |
| `Shell` | the class `SmallShell`: the shell's state (buffer, array, `fgom`, last status), the SIGTSTP handler and one cycle of the prompt loop |
| `Scenarios` | worked lines through the model |

Each method that changes state in place is proved against the function that
specifies it:

- `Shell.SmallShell.Cycle` returns exactly `Prompt.ProcessLine`.
- `LineBuffer.ExpandPid` leaves `Expand` of the old text in the buffer.
- `ArgArray.Parse` leaves `Tokens` of the line in the slots.
- `ArgArray.IoRedirection` returns the plan of `StripRedirections` and keeps
  its arguments.
- `ArgArray.PrepareChild` returns `ChildSetup`.

The properties of the specification functions are proved as lemmas.

### Parameters

These things depend on the system, so they are parameters:

- The process id is `pid: nat`.
- Whether `open` succeeds on a file is `canOpen: (Direction, string) -> bool`.
- The line `fgets` returns is `input`.
- The status `waitpid` stores is a `WaitStatus`.

### Where the code was followed over the documented behaviour

- A background child's standard input is `/dev/null` even when the line has
  `< file`. The child's `dup2` onto fd 0 for `/dev/null` (smallsh.c:173-188)
  comes after `ioRedirection` (smallsh.c:170), so it wins.
- The built-ins are recognised before the foreground-only rule is applied
  (smallsh.c:131-153). So `status &` reports the status and launches nothing,
  in either mode.
- After a background child's redirections are stripped, its last token is
  trimmed whatever that token is (smallsh.c:190). The code does not check
  that the token is `&`.

## Model

| member | source | states |
|---|---|---|
| Decimal.DecimalString | smallsh.c:288 | the `%i` text of n is non-empty and all digits, and it begins with '0' only for 0 |
| Decimal.DecimalRoundTrip | smallsh.c:288 | reading the decimal text of n back gives n |
| Decimal.DecimalStringInjective | smallsh.c:288 | distinct numbers print differently |
| Decimal.DigitCount | smallsh.c:279-285 | the divide-by-ten loop counts the digits `%i` prints for a positive pid, and gives 0 for pid 0 |
| Expansion.Expand | smallsh.c:291-318 | the reference definition of expansion: every non-overlapping `$$`, scanned left to right, becomes the pid's digits; a replacement of two or more characters never shortens the line |
| Expansion.ExpandLength | smallsh.c:291-318 | each replaced `$$` changes the line length by (digits − 2); nothing else changes it |
| Expansion.ExpandIdentity | smallsh.c:291-318 | a line without `$$` is left as it is |
| Expansion.ExpandRemovesPairs | smallsh.c:291-318 | when the replacement has no '$', no `$$` is left after expansion |
| Expansion.ExpandIdempotent | smallsh.c:291-318 | expanding an expanded line again changes nothing |
| Expansion.ExpandAfterPlainText | smallsh.c:291-294 | a prefix without '$' is copied unchanged and the scan continues after it |
| Expansion.ExpandPlainChar | smallsh.c:291-294 | a character other than '$' is copied and the scan continues after it |
| Expansion.PairStep | smallsh.c:294-315 | splicing the pid in at a `$$` and moving past it keeps the final expansion of the line unchanged |
| Expansion.CharStep | smallsh.c:291-317 | stepping over a character that does not start `$$` keeps the final expansion unchanged |
| Expansion.ShiftRight | smallsh.c:305-311 | the tail is copied k places to the right; the cells before the destination are unchanged |
| Expansion.ShiftLeft | smallsh.c:305-311 | the tail is copied k places to the left (a pid shorter than two digits) |
| Expansion.Overwrite | smallsh.c:313-314 | the pid's digits are written at the pair's position; no other cell changes |
| Expansion.LineBuffer.constructor | smallsh.c:77 | a fresh 2048-character buffer holding the empty line |
| Expansion.LineBuffer.Load | smallsh.c:91-101 | after the memset and fgets the buffer holds exactly the line read |
| Expansion.LineBuffer.ExpandedLength | smallsh.c:296-300 | the length the line will have after expansion, computed without writing |
| Expansion.LineBuffer.MoveTail | smallsh.c:305-311 | the tail is moved to its new start, in whichever direction the pid's length needs; the cells before both starts are unchanged |
| Expansion.LineBuffer.Splice | smallsh.c:304-314 | the two characters at i are replaced by the pid and the tail is shifted; the rest of the text is kept |
| Expansion.LineBuffer.ExpandPid | smallsh.c:267-319 | when the expansion fits with its NUL, the buffer holds exactly `Expand` of the old line; otherwise it refuses and changes nothing |
| Expansion.RoomCheckAsWrittenOverflows | smallsh.c:297 | a 2047-character line starting with `$$` passes the room test as written (the predicate `RoomCheckAsWritten`) for a 5-digit pid, yet expands to more than 2048 characters |
| Expansion.CpidOverflowsAsWritten | smallsh.c:277-288 | the `%i` text of a pid of 100000 or more, with its NUL, does not fit in the 6-byte `cpid` |
| Tokenizer.Tokens | smallsh.c:325-339 | the reference definition of the `strtok(" \n")` split: the maximal runs of non-delimiters, in order; there are never more tokens than characters |
| Tokenizer.WordLength | smallsh.c:330-332 | the length of the maximal run of non-delimiters at the start of the text |
| Tokenizer.TokensAreWords | smallsh.c:325-339 | every token is non-empty and contains neither ' ' nor '\n' |
| Tokenizer.NoTokensIffBlank | smallsh.c:328-332 | a line has no tokens exactly when it is all spaces and newlines |
| Tokenizer.TokensSpellLetters | smallsh.c:325-339 | the tokens, in order and concatenated, are the line's non-delimiter characters: nothing is lost or reordered |
| Tokenizer.LeadingWord | smallsh.c:330-332 | a word followed by a delimiter or by the end is split off as one token |
| Tokenizer.TokensOfJoin | smallsh.c:325-339 | splitting words joined by single spaces, with a trailing newline, gives the words back |
| Tokenizer.TokensAtSeparator | smallsh.c:330-332 | a delimiter at the scan position is skipped |
| Tokenizer.TokensAtWord | smallsh.c:330-332 | a maximal run at the scan position is the next token |
| Tokenizer.ScanSkips | smallsh.c:330-332 | skipping a delimiter keeps the tokens found so far plus those still ahead equal to the line's tokens |
| Tokenizer.ScanStores | smallsh.c:330-335 | storing a maximal run as the next argument keeps that equality, and the line has more tokens than were stored before |
| Redirection.StripRedirections | smallsh.c:347-407 | the reference definition of the stripping: every `>`/`<` and its file are removed and planned in order; on success each redirection removed exactly two tokens; an error is a missing file name or a failed open, never a missing command |
| Redirection.ApplyPlan | smallsh.c:363-392 | the reference definition of the dup2 calls in order: a descriptor that nothing redirects keeps its binding |
| Redirection.FinalTarget | smallsh.c:363-392 | the reference definition of the last file planned for a direction: it is one of the plan's files, and there is none exactly when nothing is redirected that way |
| Redirection.ChildSetup | smallsh.c:167-203 | a child that reaches execvp has a non-empty argv; it is interruptible exactly when in the foreground; in the background its stdin is /dev/null; a redirection error is the child's error |
| Redirection.StrippedHasNoOperators | smallsh.c:347-407 | no `>` or `<` is left in the arguments passed to execvp |
| Redirection.StripKeepsOrder | smallsh.c:347-407 | the kept arguments appear in the line in the same order |
| Redirection.StripWithoutOperators | smallsh.c:347-407 | a line without operators is kept whole, with nothing to redirect |
| Redirection.StripConcat | smallsh.c:347-407 | once a prefix strips cleanly, the rest of the line is scanned as if it stood alone |
| Redirection.LastOperatorWins | smallsh.c:350-392 | appending `> f` (or `< f`) keeps the arguments and makes f the final target of that direction |
| Redirection.StripSingleRedirect | smallsh.c:350-376 | a lone `> f` strips to nothing and plans one redirection |
| Redirection.DanglingOperator | smallsh.c:353-361 | an operator at the end of the line has no file name, and the child fails |
| Redirection.ApplyPlanAppend | smallsh.c:363-392 | one more dup2 rebinds its own descriptor on top of the earlier ones |
| Redirection.ApplyPlanLastWins | smallsh.c:363-392 | after all the dup2 calls, each descriptor is bound to the last file redirected to it, or is left as it was |
| Redirection.ScanKeeps | smallsh.c:347-350 | a token that is not an operator is kept and the scan moves on |
| Redirection.ScanRedirects | smallsh.c:350-405 | an operator and its file are removed, the redirection is planned, and the scan stays at the same index |
| Redirection.ScanMissingTarget | smallsh.c:353-390 | an operator in the last slot ends the scan with an error |
| Redirection.ScanOpenFails | smallsh.c:353-390 | an operator whose file cannot be opened ends the scan with an error |
| ArgArrays.WordEnd | smallsh.c:330-332 | the end of the run of non-delimiters that starts at the scan position: every character before it is a non-delimiter, and it is a delimiter or the end |
| ArgArrays.PresentAfterRemove | smallsh.c:415-423 | slots moved down over position k hold the old arguments with the k-th removed |
| ArgArrays.ArgArray.constructor | smallsh.c:78-79 | an array of MAX_ARGS slots holding no arguments; the C leaves argArray uninitialised, and the model starts it with NULL slots, which changes nothing because parseInput writes every slot it uses before reading it |
| ArgArrays.ArgArray.Reset | smallsh.c:429-439 | the used slots become NULL, the count becomes 0, and later slots are untouched |
| ArgArrays.ArgArray.Trim | smallsh.c:413-424 | the argument at k is removed, later ones move down one slot, and the former last slot becomes NULL |
| ArgArrays.ArgArray.Parse | smallsh.c:325-339 | the slots hold exactly the tokens of the line, followed by NULL; a line with too many tokens is refused |
| ArgArrays.ArgArray.IoRedirection | smallsh.c:345-408 | the plan and the remaining arguments are those of `StripRedirections` of the arguments beforehand |
| ArgArrays.ArgArray.PrepareChild | smallsh.c:167-203 | the outcome is `ChildSetup` of the arguments beforehand, and on success the array holds the argv |
| ArgArrays.ParseCountAsWritten | smallsh.c:328-335 | the reference definition of the count parseInput reports as written: never below 1, and the number of tokens whenever there is one |
| ArgArrays.BlankLineCountAsWritten | smallsh.c:328-335 | on a line of spaces, strtok finds no token but the count as written is 1 |
| Prompt.StatusMessage | smallsh.c:488-507 | the reference definition of the `status` text: one line ending in its only newline |
| Prompt.StatusMessageInjective | smallsh.c:488-507 | different wait statuses print different `status` messages |
| Prompt.StatusBeforeAnyCommand | smallsh.c:484-487 | before any foreground command, `status` prints "exit value 0" |
| Prompt.JunkStatusMisreported | smallsh.c:85 | the status the C code starts with is not reported as "exit value 0" |
| Prompt.ToggleMessage | smallsh.c:57-65 | the notices are the 50 and 30 bytes that `write` sends |
| Prompt.Dispatch | smallsh.c:118-153 | the reference definition of the decision on a tokenised line: a launch exactly when the first token is not a built-in, in the background exactly when it ends in `&` outside foreground-only mode, with the line's arguments less only the `&` that foreground-only mode discards |
| Prompt.ProcessLine | smallsh.c:106-153 | the reference definition of one pass of the loop: comment and empty lines are skipped, and a launched command has fewer than MAX_ARGS arguments, each a non-empty word without ' ' or '\n' |
| Prompt.LaunchedWords | smallsh.c:146-153 | a launch's arguments are no more than the line's tokens, and each is one of its words |
| Prompt.DispatchByFirstToken | smallsh.c:131-153 | `exit`, `cd` and `status` are recognised by exact match on the first token; cd gets the second token or nothing; every other command is launched, never in the background in foreground-only mode |
| Prompt.CommentSkipped | smallsh.c:106-110 | a line starting with '#' or a newline is skipped |
| Prompt.BlankLineSkipped | smallsh.c:106-116 | a line of spaces and newlines is skipped |
| Prompt.AmpersandRoundTrip | smallsh.c:189-190 | dropping the trailing `&` and putting it back gives the line back |
| Prompt.ForegroundOnlyIgnoresAmpersand | smallsh.c:146-153 | in foreground-only mode, a command with a trailing `&` runs exactly as if the `&` were absent |
| Prompt.StripAmpersand | smallsh.c:170-190 | a trailing `&` is no operator: after ioRedirection it is still the last argument, behind the stripped ones, and the plan is unchanged |
| Prompt.BackgroundChildDropsAmpersand | smallsh.c:121-191 | for any line whose redirections strip cleanly, outside foreground-only mode a trailing `&` launches in the background, and the child runs the stripped arguments without `&`, with the planned redirections applied, then stdin on /dev/null, SIGINT ignored |
| Shell.SmallShell.constructor | smallsh.c:73-85 | the shell starts in normal mode, with "exit value 0" as its last status and an empty buffer and array |
| Shell.SmallShell.CatchSIGTSTP | smallsh.c:51-68 | the mode flips, and the notice for the new mode is returned |
| Shell.SmallShell.SuspendTwice | smallsh.c:51-68 | two SIGTSTPs restore the mode, after the two different notices |
| Shell.SmallShell.FinishForeground | smallsh.c:222-229 | the status is kept for `status`, and a child killed by a signal is reported in `status`'s words |
| Shell.SmallShell.Decide | smallsh.c:118-153 | the decision on a tokenised line is `Dispatch` of its arguments; for a launch in foreground-only mode the trailing `&` has been trimmed from the array; a built-in leaves the array unchanged |
| Shell.SmallShell.StatusReport | smallsh.c:141-142 | the built-in `status` prints `StatusMessage` of the last stored status, one line |
| Shell.SmallShell.FinishThenReport | smallsh.c:222-229 | after a foreground child finishes, the next `status` prints its status, and a signal report uses the same words |
| Shell.SmallShell.Cycle | smallsh.c:88-153 | one pass of the loop returns exactly `ProcessLine` of the line; for a launch, the array holds the arguments |
| Scenarios.StatusExamples | smallsh.c:491-501 | "exit value 7" and "terminated by signal 9" |
| Scenarios.Pid1234 | smallsh.c:288 | 1234 prints as "1234" |
| Scenarios.ExampleExpansionTail | smallsh.c:113 | `$$out` expands to `1234out` |
| Scenarios.ExampleExpansion | smallsh.c:113 | `ls -la $$out` expands to `ls -la 1234out` for pid 1234 |
| Scenarios.ExampleTokens | smallsh.c:116 | `ls -la 1234out` splits into three tokens |
| Scenarios.ExampleLine | smallsh.c:106-156 | with pid 1234, the line `ls -la $$out` launches ls in the foreground with `-la 1234out` |
| Scenarios.ExampleOutputRedirect | smallsh.c:350-376 | `echo hello > out.txt` runs echo hello with standard output on out.txt |

## Left out

- fork, execvp, waitpid and exit: the process lifecycle is outside the model.
  - `Launch` is where the model hands over to fork.
  - `ChildSetup` describes what the child has set up when it calls execvp.
- The `waitpid(-1, …, WNOHANG)` reaper at the end of each cycle (smallsh.c:234-241) is not modelled.
  - In the C it writes into the same `childExitStatus`, so a finished background child changes what `status` reports. The model keeps only the last foreground status.
- sigaction (smallsh.c:248-261, 196-197) is OS state. The model keeps only the child's `interruptible` flag.
- The cd, chdir, getenv("HOME") and Exit built-ins: only the decision is modelled, as `ChangeDir(dir)` and `Exit`.
- open is the parameter `canOpen`. A dup2 failure (exit status 2, smallsh.c:365-369, 394-398) is not modelled.
- Terminal input and output are not modelled:
  - fgets returning NULL at end of input (smallsh.c:101-104);
  - the prompt;
  - perror texts;
  - "background pid is …";
  - printArgs, a debugging aid.
- The WIFEXITED and WTERMSIG bit layout: `WaitStatus` is already decoded. The JUNK_VAL (−5) initial status is read as `Unknown`, a choice made without that layout; on glibc's layout the C would print "terminated by signal 123".
- Integer widths: the pid is an unbounded `nat`. The 6-byte `cpid` (smallsh.c:277, 288) holds at most five digits; Expansion.CpidOverflowsAsWritten shows the overflow, and the model renders a pid of any length (see Findings).
- The `expand$$` scan (smallsh.c:291) stops only at '\n'. A line without one (cut by fgets at 2047 characters, or the last line before end of input) makes the C read past the text; the model stops at the end of the text.
- Characters: CMD_LINE_LENGTH counts bytes, and a Dafny `char` stands for one byte. Multi-byte encodings are not modelled.
- Expansion.LineBuffer.ExpandPid: states the intended contract, not the C as written. The differences:
  - The C does not reset its backward index `index2` between pairs, and is off by one at the line's end: the '\n' is not moved.
  - The C loop also stops at the first '\n'. In the model, '\n' is ordinary text and moves with the tail.
  - The C refuses pair by pair (perror, then continue). The model refuses the whole line before writing anything.
  - For a one-digit pid the C's backward copy smears the tail instead of shifting it left. The model shifts it.
- Expansion.LineBuffer.ExpandPid and Shell.SmallShell.Cycle require `pid > 0`. A process id is always positive.
- ArgArrays.ArgArray.Parse: a line with 512 or more tokens overflows argArray in the C. The model refuses it (`TooManyArguments`) and leaves the array empty.
- Redirection.ChildSetup: a background line that is empty after stripping makes the C write argArray[-1]. The model gives `NoCommand`.
- Redirection.ChildSetup: an empty argv in the foreground makes the C call execvp with NULL. The model gives `NoCommand`.

## Findings

| source | as written | input that shows it | evidently intended | confidence | as-written member | corrected member |
|---|---|---|---|---|---|---|
| smallsh.c:328-335 | `numArgs` starts at 1, so a line of only spaces gives 1 argument and `argArray[0]` is NULL, which line 122 then passes to strcmp | the line "  \n" | a line with no words is skipped like an empty one | not executed | ArgArrays.BlankLineCountAsWritten | ArgArrays.ArgArray.Parse |
| smallsh.c:85 | `childExitStatus` starts at JUNK_VAL (−5), which no wait call stores, so `status` before any command does not print "exit value 0" | `status` as the first command | "exit value 0" before any foreground command (smallsh.c:484-486) | not executed | Prompt.JunkStatusMisreported | Shell.SmallShell.constructor |
| smallsh.c:277-288 | `cpid` has 6 bytes, so `sprintf("%i")` writes past it for a pid of 100000 or more | pid 100000 | a digit buffer that fits any pid | not executed | Expansion.CpidOverflowsAsWritten | Expansion.LineBuffer.ExpandPid |
| smallsh.c:297 | the room test compares the position of `$$` plus the growth with 2048; the length of the shifted tail is ignored | a 2047-character line starting with `$$`, and a 5-digit pid | expand only when the whole expanded line fits in the buffer with its NUL | not executed | Expansion.RoomCheckAsWrittenOverflows | Expansion.LineBuffer.ExpandPid |
