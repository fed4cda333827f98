/**
 * The decisions commandPrompt takes on one line (smallsh.c:106-153), the
 * built-in `status` (smallsh.c:488-507) and the messages of the SIGTSTP
 * handler (smallsh.c:51-68), as functions. The imperative cycle in module
 * Shell is proved to agree with ProcessLine.
 */
module Prompt {
  import opened Wrappers
  import opened Decimal
  import opened Expansion
  import opened Tokenizer
  import opened Redirection
  import opened ArgArrays

  /** How a child ended, as far as WIFEXITED / WIFSIGNALED tell. */
  datatype WaitStatus = Exited(code: nat) | Signaled(signal: nat) | Unknown

  /** The status the shell reports before any foreground command has run. */
  const InitialStatus: WaitStatus := Exited(0)

  /** The text `status` prints for a wait status: one line, ending in a newline. */
  function StatusMessage(ws: WaitStatus): (m: string)
    ensures |m| > 0 && m[|m| - 1] == '\n'
    ensures forall i :: 0 <= i < |m| - 1 ==> m[i] != '\n'
  {
    match ws
    case Exited(n) => "exit value " + DecimalString(n) + "\n"
    case Signaled(n) => "terminated by signal " + DecimalString(n) + "\n"
    case Unknown => "exit status unknown\n"
  }

  /** `status` loses nothing: different statuses print differently. */
  lemma StatusMessageInjective(a: WaitStatus, b: WaitStatus)
    requires StatusMessage(a) == StatusMessage(b)
    ensures a == b
  {
    var m := StatusMessage(a);
    match a
    case Exited(x) =>
      assert m[0] == 'e' && m[5] == 'v';
      if b.Exited? {
        assert DecimalString(x) == m[11..|m| - 1] == DecimalString(b.code);
        DecimalStringInjective(x, b.code);
      }
    case Signaled(x) =>
      assert m[0] == 't';
      if b.Signaled? {
        assert DecimalString(x) == m[21..|m| - 1] == DecimalString(b.signal);
        DecimalStringInjective(x, b.signal);
      }
    case Unknown =>
      assert m[0] == 'e' && m[5] == 's';
  }

  /** Before any foreground command, `status` reports exit value 0. */
  lemma StatusBeforeAnyCommand()
    ensures StatusMessage(InitialStatus) == "exit value 0\n"
  {
  }

  const EnteringForegroundOnly: string := "\nEntering foreground-only mode (& is now ignored)\n"
  const ExitingForegroundOnly: string := "\nExiting foreground-only mode\n"

  /** The notice catchSIGTSTP writes when the mode becomes nowOn. */
  function ToggleMessage(nowOn: bool): (msg: string)
    ensures |msg| == if nowOn then 50 else 30
  {
    if nowOn then EnteringForegroundOnly else ExitingForegroundOnly
  }

  /** Why a line was refused before any command ran. */
  datatype Refusal = BufferOverflow | TooManyArguments

  /** What the shell does with one line. */
  datatype Action =
    | Skip                              // re-prompt
    | Refused(why: Refusal)
    | Exit
    | ChangeDir(dir: Option<string>)    // None: the HOME directory
    | ReportStatus
    | Launch(args: seq<string>, background: bool)

  /** Lines starting with a newline or '#' are not processed further. */
  predicate IsSkipped(line: string) {
    |line| > 0 && (line[0] == '\n' || line[0] == '#')
  }

  predicate EndsWithAmpersand(ts: seq<string>) {
    |ts| > 0 && ts[|ts| - 1] == "&"
  }

  predicate IsBuiltin(command: string) {
    command == "exit" || command == "cd" || command == "status"
  }

  /**
   * Built-in dispatch on the exact first token, then the background rule:
   * a last token "&" asks for the background unless foreground-only mode is
   * on, in which case that "&" is trimmed and the command runs in the
   * foreground. For a background launch the "&" stays in the list; the
   * child trims it (ChildSetup). This is the reference definition of the
   * decision; a launch runs in the background exactly when the line ends in
   * "&" outside foreground-only mode, and its arguments are the line's,
   * less only the "&" that foreground-only mode discards.
   */
  function Dispatch(ts: seq<string>, fgom: bool): (a: Action)
    requires |ts| > 0
    ensures a.Launch? <==> !IsBuiltin(ts[0])
    ensures a.Launch? ==> a.background == (!fgom && EndsWithAmpersand(ts))
    ensures a.Launch? ==> a.args + (if fgom && EndsWithAmpersand(ts) then ["&"] else []) == ts
  {
    var background := EndsWithAmpersand(ts);
    if ts[0] == "exit" then Exit
    else if ts[0] == "cd" then ChangeDir(if |ts| > 1 then Some(ts[1]) else None)
    else if ts[0] == "status" then ReportStatus
    else if fgom && background then Launch(ts[..|ts| - 1], false)
    else Launch(ts, background)
  }

  /**
   * One pass of the prompt loop over a line read from the terminal: the
   * reference definition that Shell's Cycle is proved against. Comment and
   * empty lines are skipped; a command that is launched has fewer arguments
   * than argArray has slots, each a non-empty word free of separators.
   */
  function ProcessLine(line: string, pid: nat, fgom: bool): (a: Action)
    ensures IsSkipped(line) ==> a == Skip
    ensures a.Launch? ==> |a.args| < MAX_ARGS
    ensures a.Launch? ==> forall i :: 0 <= i < |a.args| ==> IsWord(a.args[i])
  {
    if IsSkipped(line) then Skip
    else
      var text := ExpandPidText(line, pid);
      if |text| >= CMD_LINE_LENGTH then Refused(BufferOverflow)
      else
        var ts := Tokens(text);
        if |ts| >= MAX_ARGS then Refused(TooManyArguments)
        else if ts == [] then Skip
        else
          TokensAreWords(text);
          LaunchedWords(ts, fgom);
          Dispatch(ts, fgom)
  }

  /** The arguments of a launch are among the line's tokens. */
  lemma LaunchedWords(ts: seq<string>, fgom: bool)
    requires |ts| > 0 && forall i :: 0 <= i < |ts| ==> IsWord(ts[i])
    ensures Dispatch(ts, fgom).Launch? ==> |Dispatch(ts, fgom).args| <= |ts|
    ensures Dispatch(ts, fgom).Launch? ==>
      forall i :: 0 <= i < |Dispatch(ts, fgom).args| ==> IsWord(Dispatch(ts, fgom).args[i])
  {
    var a := Dispatch(ts, fgom);
    if a.Launch? {
      var extra: seq<string> := if fgom && EndsWithAmpersand(ts) then ["&"] else [];
      assert a.args + extra == ts;
      forall i | 0 <= i < |a.args| ensures IsWord(a.args[i]) {
        assert a.args[i] == ts[i];
      }
    }
  }

  /**
   * The built-ins are recognised by an exact match on the first token and
   * bypass the background rule; `cd` gets the second token if there is one
   * and otherwise nothing (HOME). Every other command is launched, never in
   * the background while foreground-only mode is on.
   */
  lemma DispatchByFirstToken(ts: seq<string>, fgom: bool)
    requires |ts| > 0
    ensures Dispatch(ts, fgom) == Exit <==> ts[0] == "exit"
    ensures Dispatch(ts, fgom).ChangeDir? <==> ts[0] == "cd"
    ensures ts[0] == "cd" ==> Dispatch(ts, fgom).dir == if |ts| > 1 then Some(ts[1]) else None
    ensures Dispatch(ts, fgom) == ReportStatus <==> ts[0] == "status"
    ensures Dispatch(ts, fgom).Launch? <==> !IsBuiltin(ts[0])
    ensures Dispatch(ts, fgom).Launch? && fgom ==> !Dispatch(ts, fgom).background
  {
  }

  /** Comment lines and empty lines are skipped before any expansion. */
  lemma CommentSkipped(line: string, pid: nat, fgom: bool)
    requires |line| > 0 && (line[0] == '#' || line[0] == '\n')
    ensures ProcessLine(line, pid, fgom) == Skip
  {
  }

  /** A line of separators only is skipped like a comment. */
  lemma BlankLineSkipped(line: string, pid: nat, fgom: bool)
    requires |line| < CMD_LINE_LENGTH
    requires forall k :: 0 <= k < |line| ==> IsSeparator(line[k])
    ensures ProcessLine(line, pid, fgom) == Skip
  {
    assert NoPair(line) by {
      forall i | 0 <= i < |line| - 1 ensures !(line[i] == '$' && line[i + 1] == '$') {
        assert IsSeparator(line[i]);
      }
    }
    ExpandIdentity(line, DecimalString(pid));
    NoTokensIffBlank(line);
  }

  /** Stripping a trailing "&" and putting it back gives the list back. */
  lemma AmpersandRoundTrip(ts: seq<string>)
    requires EndsWithAmpersand(ts)
    ensures DropLast(ts) + ["&"] == ts
  {
  }

  /**
   * In foreground-only mode an external command with a trailing "&" runs
   * exactly as if the "&" had not been typed.
   */
  lemma ForegroundOnlyIgnoresAmpersand(ts: seq<string>)
    requires |ts| > 0 && !IsBuiltin(ts[0]) && !EndsWithAmpersand(ts)
    ensures Dispatch(ts + ["&"], true) == Dispatch(ts, true) == Launch(ts, false)
  {
    assert (ts + ["&"])[..|ts|] == ts;
  }

  /**
   * Outside foreground-only mode a trailing "&" launches in the background.
   * The child strips the redirections first and then trims the last token,
   * so it runs the line's other arguments, with the `>` and `<` the line
   * asks for applied, then /dev/null put on standard input, and SIGINT left
   * ignored.
   */
  lemma BackgroundChildDropsAmpersand(ts: seq<string>, canOpen: (Direction, string) -> bool)
    requires |ts| > 0 && !IsBuiltin(ts[0])
    requires StripRedirections(ts, canOpen).Ok? && StripRedirections(ts, canOpen).value.args != []
    requires canOpen(In, DevNull)
    ensures Dispatch(ts + ["&"], false) == Launch(ts + ["&"], true)
    ensures var st := StripRedirections(ts, canOpen).value;
      ChildSetup(ts + ["&"], true, canOpen)
        == Ok(ExecPlan(st.args, ApplyPlan(Terminal, st.plan).(stdin := Some(DevNull)), false))
  {
    var st := StripRedirections(ts, canOpen).value;
    var line := ts + ["&"];
    assert line[0] == ts[0] && EndsWithAmpersand(line);
    StripAmpersand(ts, canOpen);
    assert DropLast(st.args + ["&"]) == st.args;
  }

  /** A trailing "&" is no operator: it is kept, after the line's other arguments. */
  lemma StripAmpersand(ts: seq<string>, canOpen: (Direction, string) -> bool)
    requires StripRedirections(ts, canOpen).Ok?
    ensures var st := StripRedirections(ts, canOpen).value;
      StripRedirections(ts + ["&"], canOpen) == Ok(Stripped(st.args + ["&"], st.plan))
  {
    var amp := ["&"];
    StripConcat(ts, amp, canOpen);
    assert !IsOperator(amp[0]);
    StripWithoutOperators(amp, canOpen);
    var noPlan: seq<Redirect> := [];
    assert StripRedirections(ts, canOpen).value.plan + noPlan == StripRedirections(ts, canOpen).value.plan;
  }

  /**
   * The JUNK_VAL (-5) that childExitStatus starts with (smallsh.c:19, 85)
   * is no status a wait call stores. What WIFEXITED and WIFSIGNALED make of
   * it depends on the platform's bit layout, which the model leaves out:
   * Unknown is a choice made without it (on glibc's layout the low seven
   * bits are 0x7b and the C prints "terminated by signal 123"). Either way
   * it is not an exit with value 0.
   */
  const InitialStatusAsWritten: WaitStatus := Unknown

  lemma JunkStatusMisreported()
    ensures StatusMessage(InitialStatusAsWritten) != StatusMessage(InitialStatus)
  {
    var m := StatusMessage(InitialStatusAsWritten);
    assert m[5] == 's' && StatusMessage(InitialStatus)[5] == 'v';
  }
}
