/**
 * Redirection planning (ioRedirection, smallsh.c:345-408) and the set-up of
 * a child before execvp (smallsh.c:167-203), as functions over the token
 * sequence. The calls to open and dup2 become a plan: the list of
 * (direction, file) pairs in the order the child applies them, and the
 * descriptors each directions ends up bound to. Whether a file can be opened
 * is a parameter, `canOpen`, since it depends on the file system.
 */
module Redirection {
  import opened Wrappers

  datatype Direction = Out | In

  /** One `> file` or `< file` of the command line. */
  datatype Redirect = Redirect(dir: Direction, file: string)

  /** The arguments left after stripping, and the redirections found, in order. */
  datatype Stripped = Stripped(args: seq<string>, plan: seq<Redirect>)

  /** Why a child ends with status 1 before its program is loaded. */
  datatype ChildError =
    | MissingTarget(dir: Direction)         // an operator with no token after it
    | OpenFailed(dir: Direction, file: string)
    | NoCommand                             // nothing left to pass to execvp

  /** What fd 0 and fd 1 are bound to; None is the shell's terminal. */
  datatype Streams = Streams(stdin: Option<string>, stdout: Option<string>)

  const Terminal: Streams := Streams(None, None)

  /** Where a background child's standard input goes (smallsh.c:176). */
  const DevNull: string := "/dev/null"

  predicate IsOperator(t: string) {
    t == ">" || t == "<"
  }

  /** The direction an operator token stands for. */
  function DirectionOf(t: string): Direction {
    if t == ">" then Out else In
  }

  function OperatorToken(dir: Direction): string {
    if dir == Out then ">" else "<"
  }

  function Prepend(args: seq<string>, plan: seq<Redirect>, r: Result<Stripped, ChildError>): Result<Stripped, ChildError> {
    match r
    case Ok(st) => Ok(Stripped(args + st.args, plan + st.plan))
    case Err(e) => Err(e)
  }

  /**
   * The left-to-right scan of ioRedirection, as the reference definition of
   * the arguments it leaves and the redirections it performs: an operator
   * consumes the token after it as its file name, which must be present and
   * openable; every other token is kept. Each redirection removes two tokens
   * and nothing else is removed; the scan itself never reports NoCommand.
   */
  function StripRedirections(ts: seq<string>, canOpen: (Direction, string) -> bool): (r: Result<Stripped, ChildError>)
    ensures r.Ok? ==> |ts| == |r.value.args| + 2 * |r.value.plan|
    ensures r.Err? ==> !r.error.NoCommand?
  {
    if ts == [] then Ok(Stripped([], []))
    else if IsOperator(ts[0]) then
      var dir := DirectionOf(ts[0]);
      if |ts| == 1 then Err(MissingTarget(dir))
      else if !canOpen(dir, ts[1]) then Err(OpenFailed(dir, ts[1]))
      else Prepend([], [Redirect(dir, ts[1])], StripRedirections(ts[2..], canOpen))
    else Prepend([ts[0]], [], StripRedirections(ts[1..], canOpen))
  }

  /** a occurs in b in order, possibly with other elements in between. */
  predicate IsSubsequence<T(==)>(a: seq<T>, b: seq<T>) {
    if a == [] then true
    else if b == [] then false
    else (a[0] == b[0] && IsSubsequence(a[1..], b[1..])) || IsSubsequence(a, b[1..])
  }

  /** The stream a direction is bound to after one more dup2. */
  function Redirected(s: Streams, r: Redirect): Streams {
    if r.dir == Out then s.(stdout := Some(r.file)) else s.(stdin := Some(r.file))
  }

  /**
   * The effect of the child's dup2 calls, applied in scan order. A
   * descriptor that no redirection of the plan names keeps its binding.
   */
  function ApplyPlan(s: Streams, plan: seq<Redirect>): (r: Streams)
    ensures (forall i :: 0 <= i < |plan| ==> plan[i].dir != Out) ==> r.stdout == s.stdout
    ensures (forall i :: 0 <= i < |plan| ==> plan[i].dir != In) ==> r.stdin == s.stdin
    decreases plan
  {
    if plan == [] then s else ApplyPlan(Redirected(s, plan[0]), plan[1..])
  }

  /**
   * The file named by the last redirection of a direction, if any: an
   * independent definition, scanning from the end, of where a descriptor
   * ends up. A file found is one the plan redirects that direction to; none
   * is found exactly when the plan has no redirection of that direction.
   */
  function FinalTarget(plan: seq<Redirect>, dir: Direction): (t: Option<string>)
    ensures t.Some? ==> exists i :: 0 <= i < |plan| && plan[i] == Redirect(dir, t.value)
    ensures t.None? <==> forall i :: 0 <= i < |plan| ==> plan[i].dir != dir
  {
    if plan == [] then None
    else if plan[|plan| - 1].dir == dir then Some(plan[|plan| - 1].file)
    else FinalTarget(plan[..|plan| - 1], dir)
  }

  function Bound(s: Streams, dir: Direction): Option<string> {
    if dir == Out then s.stdout else s.stdin
  }

  function DropLast(s: seq<string>): seq<string> {
    if s == [] then [] else s[..|s| - 1]
  }

  /** Everything the child has set up when it calls execvp. */
  datatype ExecPlan = ExecPlan(argv: seq<string>, streams: Streams, interruptible: bool)

  /**
   * The child's side of the fork (smallsh.c:167-203): strip and apply the
   * redirections; a background child then has /dev/null put on its standard
   * input (after, and so over, any `<`) and its last token removed; a
   * foreground child gets the default SIGINT action back.
   */
  function ChildSetup(ts: seq<string>, background: bool, canOpen: (Direction, string) -> bool): (r: Result<ExecPlan, ChildError>)
    ensures r.Ok? ==> |r.value.argv| > 0 && r.value.interruptible == !background
    ensures r.Ok? && background ==> r.value.streams.stdin == Some(DevNull)
    ensures StripRedirections(ts, canOpen).Err? ==> r == Err(StripRedirections(ts, canOpen).error)
  {
    match StripRedirections(ts, canOpen)
    case Err(e) => Err(e)
    case Ok(st) =>
      var streams := ApplyPlan(Terminal, st.plan);
      if background then
        if !canOpen(In, DevNull) then Err(OpenFailed(In, DevNull))
        else if DropLast(st.args) == [] then Err(NoCommand)
        else Ok(ExecPlan(DropLast(st.args), streams.(stdin := Some(DevNull)), false))
      else if st.args == [] then Err(NoCommand)
      else Ok(ExecPlan(st.args, streams, true))
  }

  lemma PrependPrepend(a: seq<string>, p: seq<Redirect>, b: seq<string>, q: seq<Redirect>, r: Result<Stripped, ChildError>)
    ensures Prepend(a, p, Prepend(b, q, r)) == Prepend(a + b, p + q, r)
  {
    if r.Ok? {
      assert a + (b + r.value.args) == (a + b) + r.value.args;
      assert p + (q + r.value.plan) == (p + q) + r.value.plan;
    }
  }

  /** No operator survives the stripping. */
  lemma {:induction false} StrippedHasNoOperators(ts: seq<string>, canOpen: (Direction, string) -> bool)
    requires StripRedirections(ts, canOpen).Ok?
    ensures forall i :: 0 <= i < |StripRedirections(ts, canOpen).value.args| ==>
              !IsOperator(StripRedirections(ts, canOpen).value.args[i])
  {
    if ts != [] {
      if IsOperator(ts[0]) {
        StrippedHasNoOperators(ts[2..], canOpen);
      } else {
        StrippedHasNoOperators(ts[1..], canOpen);
      }
    }
  }

  /** The kept tokens appear in the original line in the same relative order. */
  lemma {:induction false} StripKeepsOrder(ts: seq<string>, canOpen: (Direction, string) -> bool)
    requires StripRedirections(ts, canOpen).Ok?
    ensures IsSubsequence(StripRedirections(ts, canOpen).value.args, ts)
  {
    if ts != [] {
      var args := StripRedirections(ts, canOpen).value.args;
      if IsOperator(ts[0]) {
        StripKeepsOrder(ts[2..], canOpen);
        assert ts[1..][1..] == ts[2..];
        assert args == StripRedirections(ts[2..], canOpen).value.args;
        if args != [] {
          assert IsSubsequence(args, ts[1..]);
        }
      } else {
        StripKeepsOrder(ts[1..], canOpen);
        assert args == [ts[0]] + StripRedirections(ts[1..], canOpen).value.args;
        assert args[1..] == StripRedirections(ts[1..], canOpen).value.args;
      }
    }
  }

  /** A line without operators is passed through whole, with an empty plan. */
  lemma {:induction false} StripWithoutOperators(ts: seq<string>, canOpen: (Direction, string) -> bool)
    requires forall i :: 0 <= i < |ts| ==> !IsOperator(ts[i])
    ensures StripRedirections(ts, canOpen) == Ok(Stripped(ts, []))
  {
    if ts != [] {
      StripWithoutOperators(ts[1..], canOpen);
      assert !IsOperator(ts[0]);
      assert [ts[0]] + ts[1..] == ts;
      var none: seq<Redirect> := [];
      assert none + none == none;
    }
  }

  /**
   * Stripping a line in two pieces: once the first piece strips cleanly, the
   * scan of the rest goes on as if the rest were a line of its own.
   */
  lemma {:induction false} StripConcat(a: seq<string>, b: seq<string>, canOpen: (Direction, string) -> bool)
    requires StripRedirections(a, canOpen).Ok?
    ensures var st := StripRedirections(a, canOpen).value;
      StripRedirections(a + b, canOpen) == Prepend(st.args, st.plan, StripRedirections(b, canOpen))
  {
    var r := StripRedirections(b, canOpen);
    if a == [] {
      assert a + b == b;
      if r.Ok? {
        assert [] + r.value.args == r.value.args && [] + r.value.plan == r.value.plan;
      }
    } else if IsOperator(a[0]) {
      var dir := DirectionOf(a[0]);
      assert (a + b)[2..] == a[2..] + b;
      StripConcat(a[2..], b, canOpen);
      var st' := StripRedirections(a[2..], canOpen).value;
      PrependPrepend([], [Redirect(dir, a[1])], st'.args, st'.plan, r);
    } else {
      assert (a + b)[1..] == a[1..] + b;
      StripConcat(a[1..], b, canOpen);
      var st' := StripRedirections(a[1..], canOpen).value;
      PrependPrepend([a[0]], [], st'.args, st'.plan, r);
    }
  }

  /**
   * Of several redirections of one direction the last one decides the
   * target: appending `> f` (or `< f`) to a line that strips cleanly keeps
   * its arguments and makes f the final target of that direction.
   */
  lemma LastOperatorWins(a: seq<string>, dir: Direction, f: string, canOpen: (Direction, string) -> bool)
    requires StripRedirections(a, canOpen).Ok? && canOpen(dir, f)
    ensures var r := StripRedirections(a + [OperatorToken(dir), f], canOpen);
      && r.Ok?
      && r.value.args == StripRedirections(a, canOpen).value.args
      && FinalTarget(r.value.plan, dir) == Some(f)
  {
    var b := [OperatorToken(dir), f];
    StripConcat(a, b, canOpen);
    StripSingleRedirect(dir, f, canOpen);
    var st := StripRedirections(a, canOpen).value;
    assert st.args + [] == st.args;
  }

  /** A lone `> f` or `< f` strips to nothing and plans one redirection. */
  lemma StripSingleRedirect(dir: Direction, f: string, canOpen: (Direction, string) -> bool)
    requires canOpen(dir, f)
    ensures StripRedirections([OperatorToken(dir), f], canOpen) == Ok(Stripped([], [Redirect(dir, f)]))
  {
    var b := [OperatorToken(dir), f];
    assert b[2..] == [];
    assert IsOperator(b[0]) && DirectionOf(b[0]) == dir;
    var noArgs: seq<string> := [];
    var noPlan: seq<Redirect> := [];
    assert noArgs + noArgs == noArgs && [Redirect(dir, f)] + noPlan == [Redirect(dir, f)];
  }

  /** An operator at the end of the line has no file name: the child fails. */
  lemma DanglingOperator(a: seq<string>, dir: Direction, canOpen: (Direction, string) -> bool)
    requires StripRedirections(a, canOpen).Ok?
    ensures StripRedirections(a + [OperatorToken(dir)], canOpen) == Err(MissingTarget(dir))
  {
    StripConcat(a, [OperatorToken(dir)], canOpen);
  }

  lemma {:induction false} ApplyPlanAppend(s: Streams, p: seq<Redirect>, r: Redirect)
    ensures ApplyPlan(s, p + [r]) == Redirected(ApplyPlan(s, p), r)
    decreases p
  {
    if p != [] {
      assert (p + [r])[1..] == p[1..] + [r];
      ApplyPlanAppend(Redirected(s, p[0]), p[1..], r);
    }
  }

  /**
   * Each dup2 to fd 0 or fd 1 replaces the previous binding, so after the
   * whole plan a direction is bound to its last redirection's file, or is
   * left as it was when the plan has none for it.
   */
  lemma {:induction false} ApplyPlanLastWins(s: Streams, p: seq<Redirect>, dir: Direction)
    ensures Bound(ApplyPlan(s, p), dir) == match FinalTarget(p, dir) case Some(f) => Some(f) case None => Bound(s, dir)
  {
    if p != [] {
      var init := p[..|p| - 1];
      var last := p[|p| - 1];
      assert p == init + [last];
      ApplyPlanAppend(s, init, last);
      ApplyPlanLastWins(s, init, dir);
    }
  }

  /*
   * The steps of ioRedirection's in-place scan. `Prepend(a[..i], plan,
   * StripRedirections(a[i..]))` is the outcome of a scan that has kept
   * a[..i] and planned `plan` so far; each step leaves it unchanged.
   */

  /** A kept token: the scan moves on by one. */
  lemma ScanKeeps(a: seq<string>, i: nat, plan: seq<Redirect>, canOpen: (Direction, string) -> bool)
    requires i < |a| && !IsOperator(a[i])
    ensures Prepend(a[..i], plan, StripRedirections(a[i..], canOpen))
         == Prepend(a[..i + 1], plan, StripRedirections(a[i + 1..], canOpen))
  {
    assert a[i..][1..] == a[i + 1..];
    PrependPrepend(a[..i], plan, [a[i]], [], StripRedirections(a[i + 1..], canOpen));
    assert a[..i] + [a[i]] == a[..i + 1] && plan + [] == plan;
  }

  /** An operator with its file: both are removed and the redirection is planned. */
  lemma ScanRedirects(a: seq<string>, i: nat, plan: seq<Redirect>, canOpen: (Direction, string) -> bool)
    requires i + 1 < |a| && IsOperator(a[i]) && canOpen(DirectionOf(a[i]), a[i + 1])
    ensures var b := a[..i] + a[i + 2..];
      Prepend(a[..i], plan, StripRedirections(a[i..], canOpen))
        == Prepend(b[..i], plan + [Redirect(DirectionOf(a[i]), a[i + 1])], StripRedirections(b[i..], canOpen))
  {
    var b := a[..i] + a[i + 2..];
    assert a[i..][0] == a[i] && a[i..][1] == a[i + 1];
    assert a[i..][2..] == a[i + 2..];
    assert b[..i] == a[..i] && b[i..] == a[i + 2..];
    PrependPrepend(a[..i], plan, [], [Redirect(DirectionOf(a[i]), a[i + 1])], StripRedirections(a[i + 2..], canOpen));
    assert a[..i] + [] == a[..i];
  }

  /** An operator in the last position: the scan fails. */
  lemma ScanMissingTarget(a: seq<string>, i: nat, plan: seq<Redirect>, canOpen: (Direction, string) -> bool)
    requires i + 1 == |a| && IsOperator(a[i])
    ensures Prepend(a[..i], plan, StripRedirections(a[i..], canOpen)) == Err(MissingTarget(DirectionOf(a[i])))
  {
    assert a[i..] == [a[i]];
  }

  /** An operator whose file cannot be opened: the scan fails. */
  lemma ScanOpenFails(a: seq<string>, i: nat, plan: seq<Redirect>, canOpen: (Direction, string) -> bool)
    requires i + 1 < |a| && IsOperator(a[i]) && !canOpen(DirectionOf(a[i]), a[i + 1])
    ensures Prepend(a[..i], plan, StripRedirections(a[i..], canOpen)) == Err(OpenFailed(DirectionOf(a[i]), a[i + 1]))
  {
    assert a[i..][0] == a[i] && a[i..][1] == a[i + 1];
  }
}
