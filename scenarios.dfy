/**
 * Concrete lines run through the model: the worked cases the shell's
 * behaviour is usually explained with (a "$$" inside a word, an output
 * redirection, the status messages).
 */
module Scenarios {
  import opened Wrappers
  import opened Decimal
  import opened Expansion
  import opened Tokenizer
  import opened Redirection
  import opened Prompt

  /** `status` after an exit with 7 and after a kill by signal 9. */
  lemma StatusExamples()
    ensures StatusMessage(Exited(7)) == "exit value 7\n"
    ensures StatusMessage(Signaled(9)) == "terminated by signal 9\n"
  {
  }

  lemma Pid1234()
    ensures DecimalString(1234) == "1234"
  {
    assert DecimalString(1) == "1";
    assert DecimalString(12) == "1" + [DigitChar(2)] == "12";
    assert DecimalString(123) == "12" + [DigitChar(3)] == "123";
    assert DecimalString(1234) == "123" + [DigitChar(4)] == "1234";
  }

  lemma ExampleExpansionTail()
    ensures Expand("$$out\n", "1234") == "1234out\n"
  {
    var tail := "out\n";
    ExpandAfterPlainText(tail, [], "1234");
    assert tail + [] == tail;
    assert "$$out\n"[2..] == tail;
  }

  lemma ExampleExpansion()
    ensures ExpandPidText("ls -la $$out\n", 1234) == "ls -la 1234out\n"
  {
    Pid1234();
    ExampleExpansionTail();
    var head, rest := "ls -la ", "$$out\n";
    assert forall k :: 0 <= k < |head| ==> head[k] != '$';
    ExpandAfterPlainText(head, rest, "1234");
    assert head + rest == "ls -la $$out\n";
    assert head + "1234out\n" == "ls -la 1234out\n";
  }

  lemma ExampleTokens()
    ensures Tokens("ls -la 1234out\n") == ["ls", "-la", "1234out"]
  {
    var ws := ["ls", "-la", "1234out"];
    assert Join(ws) == "ls -la 1234out" by {
      assert ws[1..] == ["-la", "1234out"] && ws[1..][1..] == ["1234out"];
    }
    assert "ls -la 1234out\n" == Join(ws) + "\n";
    TokensOfJoin(ws, "\n");
  }

  /** With pid 1234, `ls -la $$out` runs ls with the arguments -la and 1234out. */
  lemma ExampleLine()
    ensures ProcessLine("ls -la $$out\n", 1234, false) == Launch(["ls", "-la", "1234out"], false)
  {
    var line := "ls -la $$out\n";
    var ts := ["ls", "-la", "1234out"];
    ExampleExpansion();
    ExampleTokens();
    assert !IsSkipped(line) by {
      assert line[0] == 'l';
    }
    assert ts[0] != "exit" && ts[0] != "cd" && ts[0] != "status";
    assert !EndsWithAmpersand(ts);
    assert Dispatch(ts, false) == Launch(ts, false);
  }

  /** `echo hello > out.txt` runs echo with its standard output on out.txt. */
  lemma ExampleOutputRedirect(canOpen: (Direction, string) -> bool)
    requires canOpen(Out, "out.txt")
    ensures ChildSetup(["echo", "hello", ">", "out.txt"], false, canOpen)
         == Ok(ExecPlan(["echo", "hello"], Streams(None, Some("out.txt")), true))
  {
    var a := ["echo", "hello"];
    var op := [OperatorToken(Out), "out.txt"];
    assert !IsOperator(a[0]) && !IsOperator(a[1]);
    StripWithoutOperators(a, canOpen);
    StripConcat(a, op, canOpen);
    StripSingleRedirect(Out, "out.txt", canOpen);
    assert a + op == ["echo", "hello", ">", "out.txt"];
    assert a + [] == a;
    var plan := [Redirect(Out, "out.txt")];
    var noPlan: seq<Redirect> := [];
    assert StripRedirections(a, canOpen) == Ok(Stripped(a, noPlan));
    assert noPlan + plan == plan;
    assert StripRedirections(a + op, canOpen) == Ok(Stripped(a, plan));
    assert plan[1..] == [];
    assert ApplyPlan(Terminal, plan) == Streams(None, Some("out.txt"));
  }
}
