/**
 * The shell's state and one cycle of commandPrompt's loop
 * (smallsh.c:73-153): the userInput buffer, the argument array, the
 * foreground-only flag fgom toggled by catchSIGTSTP, and the status of the
 * last foreground command.
 */
module Shell {
  import opened Wrappers
  import opened Decimal
  import opened Expansion
  import opened Redirection
  import opened ArgArrays
  import opened Prompt

  class SmallShell {
    const line: LineBuffer
    const args: ArgArray
    var fgom: bool
    var lastStatus: WaitStatus

    ghost predicate Valid()
      reads this, line, args, args.slots
    {
      line.Valid() && args.Valid()
    }

    /** The shell on start-up: normal mode, and "exit value 0" as the last status. */
    constructor ()
      ensures Valid() && fresh(line) && fresh(line.data) && fresh(args) && fresh(args.slots)
      ensures !fgom && lastStatus == InitialStatus && line.Text() == [] && args.Args() == []
    {
      line := new LineBuffer();
      args := new ArgArray();
      fgom := false;
      lastStatus := InitialStatus;
    }

    /**
     * catchSIGTSTP (smallsh.c:51-68): flips foreground-only mode and returns
     * the notice written to standard output for the new mode.
     */
    method CatchSIGTSTP() returns (msg: string)
      modifies this`fgom
      ensures fgom == !old(fgom)
      ensures msg == ToggleMessage(fgom)
    {
      if !fgom {
        fgom := true;
        msg := EnteringForegroundOnly;
      } else {
        fgom := false;
        msg := ExitingForegroundOnly;
      }
    }

    /** Two SIGTSTPs restore the mode, after both notices in order. */
    method SuspendTwice() returns (first: string, second: string)
      modifies this`fgom
      ensures fgom == old(fgom)
      ensures first == ToggleMessage(!old(fgom)) && second == ToggleMessage(old(fgom))
      ensures {first, second} == {EnteringForegroundOnly, ExitingForegroundOnly}
    {
      first := CatchSIGTSTP();
      second := CatchSIGTSTP();
    }

    /**
     * The parent after waitpid on a foreground child (smallsh.c:222-229):
     * the status is kept for `status`, and a child killed by a signal is
     * reported in the same words `status` would use.
     */
    method FinishForeground(ws: WaitStatus) returns (report: Option<string>)
      modifies this`lastStatus
      ensures lastStatus == ws
      ensures report == if ws.Signaled? then Some(StatusMessage(ws)) else None
    {
      lastStatus := ws;
      if ws.Signaled? {
        report := Some(StatusMessage(ws));
      } else {
        report := None;
      }
    }

    /**
     * The built-in `status` (smallsh.c:141-142, 488-507): the message for the
     * status FinishForeground last stored, or "exit value 0" before any
     * foreground command has run.
     */
    method StatusReport() returns (msg: string)
      ensures msg == StatusMessage(lastStatus)
      ensures |msg| > 0 && msg[|msg| - 1] == '\n'
    {
      msg := StatusMessage(lastStatus);
    }

    /** A foreground child's status is what the next `status` prints. */
    method FinishThenReport(ws: WaitStatus) returns (report: Option<string>, msg: string)
      modifies this`lastStatus
      ensures lastStatus == ws && msg == StatusMessage(ws)
      ensures report.Some? ==> report.value == msg
    {
      report := FinishForeground(ws);
      msg := StatusReport();
    }

    /**
     * One cycle of the prompt loop on a line read from the terminal, up to
     * the fork: clear the array and the buffer, skip comments and empty
     * lines, expand "$$", tokenise, and decide. The outcome is ProcessLine's;
     * for a launch the array holds the arguments the child starts from.
     */
    method Cycle(input: string, pid: nat) returns (act: Action)
      requires Valid() && |input| < CMD_LINE_LENGTH && pid > 0
      modifies line, line.data, args, args.slots
      ensures Valid()
      ensures act == ProcessLine(input, pid, fgom)
      ensures act.Launch? ==> args.Args() == act.args
    {
      args.Reset();
      line.Load(input);
      if line.len > 0 && (line.data[0] == '\n' || line.data[0] == '#') {
        return Skip;
      }
      var fits := line.ExpandPid(pid);
      if !fits {
        return Refused(BufferOverflow);
      }
      var parsed := args.Parse(line.Text());
      if !parsed {
        return Refused(TooManyArguments);
      }
      if args.numArgs == 0 {
        return Skip;
      }
      act := Decide();
    }

    /**
     * The decision on a tokenised line (smallsh.c:118-153): the built-ins by
     * their first token, then the background rule, with a trailing "&"
     * trimmed from the array in foreground-only mode.
     */
    method Decide() returns (act: Action)
      requires Valid() && args.numArgs > 0
      modifies args, args.slots
      ensures Valid()
      ensures act == Dispatch(old(args.Args()), fgom)
      ensures act.Launch? ==> args.Args() == act.args
      ensures !act.Launch? ==> args.Args() == old(args.Args())
    {
      ghost var ts := args.Args();
      var background := args.slots[args.numArgs - 1] == Some("&");
      var command := args.slots[0].value;
      if command == "exit" {
        return Exit;
      } else if command == "cd" {
        var cwd: Option<string> := None;
        if args.numArgs > 1 {
          cwd := args.slots[1];
        }
        return ChangeDir(cwd);
      } else if command == "status" {
        return ReportStatus;
      }
      if fgom && background {
        background := false;
        args.Trim(args.numArgs - 1);
        assert args.Args() == ts[..|ts| - 1];
      }
      return Launch(args.Args(), background);
    }
  }
}
