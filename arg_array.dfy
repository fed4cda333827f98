/**
 * The argument array argArray[MAX_ARGS] and its count numArgs, as the
 * shell fills and edits them in place: resetArgArray, parseInput,
 * trimArray and ioRedirection (smallsh.c:325-439), and the child's
 * preparation of the array before execvp (smallsh.c:167-203).
 */
module ArgArrays {
  import opened Wrappers
  import opened Tokenizer
  import opened Redirection

  /** Number of slots of argArray (smallsh.c:18); the last argument is followed by NULL. */
  const MAX_ARGS: nat := 512

  predicate AllPresent(s: seq<Option<string>>) {
    forall j :: 0 <= j < |s| ==> s[j].Some?
  }

  /** The strings held by a run of non-NULL slots. */
  function Present(s: seq<Option<string>>): (r: seq<string>)
    requires AllPresent(s)
    ensures |r| == |s| && forall j :: 0 <= j < |s| ==> s[j] == Some(r[j])
  {
    if s == [] then [] else [s[0].value] + Present(s[1..])
  }

  lemma PresentExtensional(s: seq<Option<string>>, r: seq<string>)
    requires AllPresent(s) && |r| == |s|
    requires forall j :: 0 <= j < |s| ==> s[j] == Some(r[j])
    ensures Present(s) == r
  {
  }

  /** The end of the run of non-separators that starts at text[i]. */
  method WordEnd(text: string, i: nat) returns (j: nat)
    requires i < |text| && !IsSeparator(text[i])
    ensures i < j <= |text|
    ensures forall k :: i <= k < j ==> !IsSeparator(text[k])
    ensures j == |text| || IsSeparator(text[j])
  {
    j := i + 1;
    while j < |text| && !IsSeparator(text[j])
      invariant i < j <= |text|
      invariant forall k :: i <= k < j ==> !IsSeparator(text[k])
    {
      j := j + 1;
    }
  }

  /** s with its element at position k removed and the rest moved down. */
  function RemoveAt<T>(s: seq<T>, k: nat): seq<T>
    requires k < |s|
  {
    s[..k] + s[k + 1..]
  }

  /** The first n slots of o, with the one at position k taken out and the rest moved down. */
  lemma PresentAfterRemove(o: seq<Option<string>>, s: seq<Option<string>>, n: nat, k: nat)
    requires k < n <= |o| && AllPresent(o[..n]) && |s| == n - 1
    requires forall j :: 0 <= j < k ==> s[j] == o[j]
    requires forall j :: k <= j < |s| ==> s[j] == o[j + 1]
    ensures AllPresent(s) && Present(s) == RemoveAt(Present(o[..n]), k)
  {
    var before := Present(o[..n]);
    var r := RemoveAt(before, k);
    forall j | 0 <= j < |s| ensures s[j] == Some(r[j]) {
      if j < k {
        assert r[j] == before[j] && o[..n][j] == o[j];
      } else {
        assert r[j] == before[j + 1] && o[..n][j + 1] == o[j + 1];
      }
    }
    PresentExtensional(s, r);
  }

  lemma RemoveTwice<T>(s: seq<T>, k: nat)
    requires k + 1 < |s|
    ensures RemoveAt(RemoveAt(s, k), k) == s[..k] + s[k + 2..]
  {
  }

  lemma PrependNothing(r: Result<Stripped, ChildError>)
    ensures Prepend([], [], r) == r
  {
    if r.Ok? {
      assert [] + r.value.args == r.value.args && [] + r.value.plan == r.value.plan;
    }
  }

  function PlanOf(r: Result<Stripped, ChildError>): Result<seq<Redirect>, ChildError> {
    match r
    case Ok(st) => Ok(st.plan)
    case Err(e) => Err(e)
  }

  /** The parseInput count as written (smallsh.c:328-335): never less than 1. */
  function ParseCountAsWritten(text: string): (n: nat)
    ensures n >= 1
    ensures Tokens(text) != [] ==> n == |Tokens(text)|
  {
    if Tokens(text) == [] then 1 else |Tokens(text)|
  }

  /**
   * On a line of spaces parseInput as written reports one argument while
   * strtok found none, so argArray[0] is NULL when line 122 compares
   * argArray[numArgs - 1] with "&".
   */
  lemma BlankLineCountAsWritten()
    ensures Tokens("  \n") == [] && ParseCountAsWritten("  \n") == 1
  {
    NoTokensIffBlank("  \n");
  }

  class ArgArray {
    var slots: array<Option<string>>
    var numArgs: nat

    /** The first numArgs slots hold the arguments and the next one is NULL. */
    ghost predicate Valid()
      reads this, slots
    {
      && slots.Length == MAX_ARGS
      && numArgs < slots.Length
      && AllPresent(slots[..numArgs])
      && slots[numArgs] == None
    }

    /** The argument list held by the array. */
    function Args(): seq<string>
      reads this, slots
      requires Valid()
    {
      Present(slots[..numArgs])
    }

    constructor ()
      ensures Valid() && fresh(slots) && Args() == []
    {
      slots := new Option<string>[MAX_ARGS](_ => None);
      numArgs := 0;
    }

    /** resetArgArray (smallsh.c:429-439): every used slot becomes NULL, the count 0. */
    method Reset()
      requires Valid()
      modifies this`numArgs, slots
      ensures Valid() && numArgs == 0 && Args() == []
      ensures forall j :: 0 <= j < old(numArgs) ==> slots[j] == None
      ensures forall j :: old(numArgs) <= j < slots.Length ==> slots[j] == old(slots[j])
    {
      for i := 0 to numArgs
        invariant forall j :: 0 <= j < i ==> slots[j] == None
        invariant forall j :: i <= j < slots.Length ==> slots[j] == old(slots[j])
      {
        slots[i] := None;
      }
      numArgs := 0;
    }

    /**
     * trimArray (smallsh.c:413-424): removes the argument at position k,
     * moves the later ones down one slot and NULLs the slot that was last.
     */
    method Trim(k: nat)
      requires Valid() && k < numArgs
      modifies this`numArgs, slots
      ensures Valid() && numArgs == old(numArgs) - 1
      ensures forall j :: 0 <= j < k ==> slots[j] == old(slots[j])
      ensures forall j :: k <= j < numArgs ==> slots[j] == old(slots[j + 1])
      ensures slots[numArgs] == None
      ensures forall j :: old(numArgs) <= j < slots.Length ==> slots[j] == old(slots[j])
      ensures Args() == RemoveAt(old(Args()), k)
    {
      ghost var o := slots[..];
      var j := k;
      while j < numArgs - 1
        invariant numArgs == old(numArgs) && k <= j <= numArgs - 1
        invariant forall p :: 0 <= p < k ==> slots[p] == old(slots[p])
        invariant forall p :: k <= p < j ==> slots[p] == old(slots[p + 1])
        invariant forall p :: j <= p < slots.Length ==> slots[p] == old(slots[p])
      {
        slots[j] := slots[j + 1];
        j := j + 1;
      }
      numArgs := numArgs - 1;
      slots[numArgs] := None;
      PresentAfterRemove(o, slots[..numArgs], numArgs + 1, k);
      assert o[..numArgs + 1] == old(slots[..numArgs]);
    }

    /**
     * parseInput (smallsh.c:325-339): fills the slots with the tokens of the
     * line and NULLs the slot after them. A line with more tokens than the
     * array can hold with its NULL is refused and leaves an empty list.
     */
    method Parse(text: string) returns (ok: bool)
      requires Valid()
      modifies this`numArgs, slots
      ensures Valid()
      ensures ok == (|Tokens(text)| < MAX_ARGS)
      ensures Args() == if ok then Tokens(text) else []
    {
      var n: nat := 0;
      var i: nat := 0;
      ghost var found: seq<string> := [];
      while i < |text|
        invariant i <= |text| && n < slots.Length && |found| == n
        invariant forall p :: 0 <= p < n ==> slots[p] == Some(found[p])
        invariant found + Tokens(text[i..]) == Tokens(text)
        decreases |text| - i
      {
        if IsSeparator(text[i]) {
          ScanSkips(text, i, found);
          i := i + 1;
        } else {
          var j := WordEnd(text, i);
          ScanStores(text, i, j, found);
          if n + 1 == slots.Length {
            numArgs := 0;
            slots[0] := None;
            return false;
          }
          slots[n] := Some(text[i..j]);
          found := found + [text[i..j]];
          n, i := n + 1, j;
        }
      }
      assert text[i..] == [] && found == Tokens(text);
      slots[n] := None;
      PresentExtensional(slots[..n], found);
      numArgs := n;
      return true;
    }

    /**
     * ioRedirection (smallsh.c:345-408): scans the arguments; at a `>` or
     * `<` the next slot names the file, which must be present and openable,
     * and both slots are trimmed away, the scan looking at the same position
     * again. The plan returned lists the redirections in the order of their
     * dup2 calls; the arguments left are those of StripRedirections.
     */
    method IoRedirection(canOpen: (Direction, string) -> bool) returns (r: Result<seq<Redirect>, ChildError>)
      requires Valid()
      modifies this`numArgs, slots
      ensures Valid()
      ensures r == PlanOf(StripRedirections(old(Args()), canOpen))
      ensures r.Ok? ==> Args() == StripRedirections(old(Args()), canOpen).value.args
    {
      ghost var whole := StripRedirections(Args(), canOpen);
      var plan: seq<Redirect> := [];
      var i: nat := 0;
      assert Args()[..0] == [] && Args()[0..] == Args();
      PrependNothing(whole);
      while i < numArgs
        invariant Valid() && i <= numArgs
        invariant whole == Prepend(Args()[..i], plan, StripRedirections(Args()[i..], canOpen))
        decreases numArgs - i
      {
        ghost var a := Args();
        var t := slots[i].value;
        assert t == a[i];
        if t == ">" || t == "<" {
          var dir := DirectionOf(t);
          match slots[i + 1]
          case None =>
            ScanMissingTarget(a, i, plan, canOpen);
            return Err(MissingTarget(dir));
          case Some(file) =>
            assert a[i + 1] == file;
            if !canOpen(dir, file) {
              ScanOpenFails(a, i, plan, canOpen);
              return Err(OpenFailed(dir, file));
            }
            ScanRedirects(a, i, plan, canOpen);
            plan := plan + [Redirect(dir, file)];
            Trim(i);
            Trim(i);
            RemoveTwice(a, i);
        } else {
          ScanKeeps(a, i, plan, canOpen);
          i := i + 1;
        }
      }
      assert Args()[i..] == [] && Args()[..i] == Args() && plan + [] == plan;
      return Ok(plan);
    }

    /**
     * The child's side of the fork (smallsh.c:167-203): redirections are
     * applied and stripped; a background child also has /dev/null put on
     * standard input and its last token trimmed. The outcome is the one
     * ChildSetup gives for the arguments held before the call, and on
     * success the array holds exactly the argv handed to execvp.
     */
    method PrepareChild(background: bool, canOpen: (Direction, string) -> bool) returns (r: Result<ExecPlan, ChildError>)
      requires Valid()
      modifies this`numArgs, slots
      ensures Valid()
      ensures r == ChildSetup(old(Args()), background, canOpen)
      ensures r.Ok? ==> Args() == r.value.argv
    {
      var planned := IoRedirection(canOpen);
      if planned.Err? {
        return Err(planned.error);
      }
      var streams := ApplyPlan(Terminal, planned.value);
      if background {
        if !canOpen(In, DevNull) {
          return Err(OpenFailed(In, DevNull));
        }
        streams := streams.(stdin := Some(DevNull));
        if numArgs == 0 {
          return Err(NoCommand);
        }
        ghost var kept := Args();
        Trim(numArgs - 1);
        assert Args() == DropLast(kept);
        if numArgs == 0 {
          return Err(NoCommand);
        }
        return Ok(ExecPlan(Args(), streams, false));
      }
      if numArgs == 0 {
        return Err(NoCommand);
      }
      return Ok(ExecPlan(Args(), streams, true));
    }
  }
}
