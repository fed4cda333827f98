/**
 * `$$` expansion (expand$$, smallsh.c:264-319): every non-overlapping
 * occurrence of the two characters "$$", scanned left to right, becomes the
 * decimal process id. The specification is the function Expand over the
 * line's text; LineBuffer is the fixed 2048-character userInput buffer that
 * the shell rewrites in place, and its ExpandPid method is proved to leave
 * exactly Expand of the old text in the buffer, or to refuse and leave the
 * buffer untouched when the result would not fit.
 */
module Expansion {
  import opened Decimal

  /** Size of the userInput buffer (smallsh.c:17); one place is kept for the NUL. */
  const CMD_LINE_LENGTH: nat := 2048

  /** True when s starts with the two characters "$$". */
  predicate StartsWithPair(s: seq<char>) {
    |s| >= 2 && s[0] == '$' && s[1] == '$'
  }

  /**
   * Left-to-right replacement of every non-overlapping "$$" in s by d: the
   * reference definition of what expand$$ is meant to leave in the buffer.
   * A replacement of two or more characters never shortens the line.
   */
  function Expand(s: seq<char>, d: seq<char>): (r: seq<char>)
    ensures |d| >= 2 ==> |r| >= |s|
  {
    if StartsWithPair(s) then d + Expand(s[2..], d)
    else if s == [] then []
    else [s[0]] + Expand(s[1..], d)
  }

  /** The number of "$$" pairs that Expand replaces. */
  function Pairs(s: seq<char>): nat {
    if StartsWithPair(s) then 1 + Pairs(s[2..])
    else if s == [] then 0
    else Pairs(s[1..])
  }

  /** s contains no two adjacent '$' characters. */
  predicate NoPair(s: seq<char>) {
    forall i :: 0 <= i < |s| - 1 ==> !(s[i] == '$' && s[i + 1] == '$')
  }

  /** Expansion with the process id's decimal digits. */
  function ExpandPidText(s: seq<char>, pid: nat): seq<char> {
    Expand(s, DecimalString(pid))
  }

  lemma MulSucc(k: nat, m: int)
    ensures (k + 1) * m == k * m + m
  {
  }

  /** Each replaced pair changes the length by |d| - 2 and nothing else does. */
  lemma {:induction false} ExpandLength(s: seq<char>, d: seq<char>)
    ensures |Expand(s, d)| == |s| + Pairs(s) * (|d| - 2)
  {
    if StartsWithPair(s) {
      ExpandLength(s[2..], d);
      var k, m := Pairs(s[2..]), |d| - 2;
      assert Pairs(s) == k + 1;
      assert |Expand(s, d)| == |d| + |Expand(s[2..], d)|;
      assert |s[2..]| == |s| - 2;
      assert |Expand(s[2..], d)| == |s| - 2 + k * m;
      MulSucc(k, m);
      assert |Expand(s, d)| == |s| + (k + 1) * m;
    } else if s != [] {
      ExpandLength(s[1..], d);
      assert Pairs(s) == Pairs(s[1..]);
      assert |Expand(s, d)| == 1 + |Expand(s[1..], d)|;
    }
  }

  /** Text with no "$$" is left as it is. */
  lemma {:induction false} ExpandIdentity(s: seq<char>, d: seq<char>)
    requires NoPair(s)
    ensures Expand(s, d) == s
  {
    if s != [] {
      assert !StartsWithPair(s);
      assert NoPair(s[1..]) by {
        forall i | 0 <= i < |s[1..]| - 1
          ensures !(s[1..][i] == '$' && s[1..][i + 1] == '$')
        {
          assert s[1..][i] == s[i + 1] && s[1..][i + 1] == s[i + 2];
        }
      }
      ExpandIdentity(s[1..], d);
    }
  }

  lemma NoPairConcat(a: seq<char>, b: seq<char>)
    requires NoPair(a) && NoPair(b)
    requires a == [] || b == [] || a[|a| - 1] != '$' || b[0] != '$'
    ensures NoPair(a + b)
  {
    forall i | 0 <= i < |a + b| - 1
      ensures !((a + b)[i] == '$' && (a + b)[i + 1] == '$')
    {
      if i + 1 < |a| {
        assert (a + b)[i] == a[i] && (a + b)[i + 1] == a[i + 1];
      } else if i >= |a| {
        assert (a + b)[i] == b[i - |a|] && (a + b)[i + 1] == b[i + 1 - |a|];
      }
    }
  }

  /** Expansion keeps a first character that is not '$'. */
  lemma ExpandKeepsHead(s: seq<char>, d: seq<char>)
    requires |s| > 0 && s[0] != '$'
    ensures |Expand(s, d)| > 0 && Expand(s, d)[0] == s[0]
  {
  }

  /** When the replacement has no '$', the expanded text has no "$$" left. */
  lemma {:induction false} ExpandRemovesPairs(s: seq<char>, d: seq<char>)
    requires forall k :: 0 <= k < |d| ==> d[k] != '$'
    ensures NoPair(Expand(s, d))
  {
    if StartsWithPair(s) {
      ExpandRemovesPairs(s[2..], d);
      NoPairConcat(d, Expand(s[2..], d));
    } else if s != [] {
      var t := s[1..];
      ExpandRemovesPairs(t, d);
      if s[0] == '$' && t != [] {
        assert t[0] != '$';
        ExpandKeepsHead(t, d);
      }
      NoPairConcat([s[0]], Expand(t, d));
    }
  }

  /** Expanding an already expanded line changes nothing (the pid has no '$'). */
  lemma ExpandIdempotent(s: seq<char>, pid: nat)
    ensures ExpandPidText(ExpandPidText(s, pid), pid) == ExpandPidText(s, pid)
  {
    var d := DecimalString(pid);
    ExpandRemovesPairs(s, d);
    ExpandIdentity(Expand(s, d), d);
  }

  /**
   * One step of the in-place scan over a pair at position i: the text done so
   * far followed by the expansion of the rest is unchanged when the pair is
   * spliced out for d and the scan moves past d. When |d| >= 2 the spliced
   * text is no longer than the final expansion.
   */
  lemma PairStep(t: seq<char>, i: nat, d: seq<char>)
    requires i + 2 <= |t| && t[i] == '$' && t[i + 1] == '$'
    ensures var u := t[..i] + d + t[i + 2..];
      && t[..i] + Expand(t[i..], d) == u[..i + |d|] + Expand(u[i + |d|..], d)
      && (|d| >= 2 ==> |u| <= |t[..i] + Expand(t[i..], d)|)
  {
    var u := t[..i] + d + t[i + 2..];
    assert StartsWithPair(t[i..]) && t[i..][2..] == t[i + 2..];
    assert u[..i + |d|] == t[..i] + d;
    assert u[i + |d|..] == t[i + 2..];
  }

  /** One step of the scan over a character that does not start a pair. */
  lemma CharStep(t: seq<char>, i: nat, d: seq<char>)
    requires i < |t| && !(i + 1 < |t| && t[i] == '$' && t[i + 1] == '$')
    ensures t[..i] + Expand(t[i..], d) == t[..i + 1] + Expand(t[i + 1..], d)
  {
    assert !StartsWithPair(t[i..]) && t[i..][1..] == t[i + 1..];
    assert t[..i + 1] == t[..i] + [t[i]];
  }

  /** A character other than '$' is copied, and expansion goes on after it. */
  lemma ExpandPlainChar(c: char, t: string, d: string)
    requires c != '$'
    ensures Expand([c] + t, d) == [c] + Expand(t, d)
  {
    assert ([c] + t)[1..] == t;
  }

  /** Text free of '$' is copied unchanged, and expansion goes on after it. */
  lemma {:induction false} ExpandAfterPlainText(a: string, b: string, d: string)
    requires forall k :: 0 <= k < |a| ==> a[k] != '$'
    ensures Expand(a + b, d) == a + Expand(b, d)
  {
    if a != [] {
      var t := a[1..];
      assert a + b == [a[0]] + (t + b);
      ExpandPlainChar(a[0], t + b, d);
      assert forall k :: 0 <= k < |t| ==> t[k] == a[k + 1];
      ExpandAfterPlainText(t, b, d);
      assert a == [a[0]] + t;
    } else {
      assert a + b == b;
    }
  }

  /** The room test of expand$$ as written (smallsh.c:297). */
  predicate RoomCheckAsWritten(index: int, pidLength: int) {
    !(index + (pidLength - 2) > CMD_LINE_LENGTH)
  }

  lemma {:induction false} NoDollarsNoPairs(s: string)
    requires forall k :: 0 <= k < |s| ==> s[k] != '$'
    ensures Pairs(s) == 0
  {
    if s != [] {
      NoDollarsNoPairs(s[1..]);
    }
  }

  /**
   * The room test only looks at the position of the "$$", not at the tail
   * that is shifted: a full line of 2047 characters starting with "$$"
   * passes it for a five-digit pid, yet its expansion has 2050 characters
   * and the shift writes past the 2048-character buffer.
   */
  lemma RoomCheckAsWrittenOverflows(tail: string)
    requires |tail| == CMD_LINE_LENGTH - 3
    requires forall k :: 0 <= k < |tail| ==> tail[k] != '$'
    ensures RoomCheckAsWritten(0, |DecimalString(12345)|)
    ensures |ExpandPidText("$$" + tail, 12345)| > CMD_LINE_LENGTH
  {
    var s := "$$" + tail;
    assert |DecimalString(12345)| == 5 by {
      assert DecimalString(12345) == DecimalString(1234) + [DigitChar(5)];
      assert DecimalString(1234) == DecimalString(123) + [DigitChar(4)];
      assert DecimalString(123) == DecimalString(12) + [DigitChar(3)];
      assert DecimalString(12) == DecimalString(1) + [DigitChar(2)];
    }
    assert StartsWithPair(s) && s[2..] == tail;
    NoDollarsNoPairs(tail);
    ExpandLength(s, DecimalString(12345));
  }

  /** Size of the cpid buffer that sprintf fills with the pid (smallsh.c:277). */
  const CPID_SIZE: nat := 6

  /**
   * sprintf("%i") writes the pid's digits and a NUL into cpid, so cpid holds
   * at most five digits: any pid of 100000 or more makes it write past the
   * buffer. ExpandPid renders a pid of any length.
   */
  lemma CpidOverflowsAsWritten(pid: nat)
    requires pid >= 100000
    ensures |DecimalString(pid)| + 1 > CPID_SIZE
  {
    var p1, p2, p3, p4 := pid / 10, pid / 100, pid / 1000, pid / 10000;
    assert p1 / 10 == p2 && p2 / 10 == p3 && p3 / 10 == p4;
    assert p4 >= 10;
    assert |DecimalString(pid)| == |DecimalString(p1)| + 1;
    assert |DecimalString(p1)| == |DecimalString(p2)| + 1;
    assert |DecimalString(p2)| == |DecimalString(p3)| + 1;
    assert |DecimalString(p3)| == |DecimalString(p4)| + 1;
    assert |DecimalString(p4)| == |DecimalString(p4 / 10)| + 1;
  }

  /** Copies the `to - from` characters at a[from..to] k places to the right, last first. */
  method ShiftRight(a: array<char>, from: nat, to: nat, k: nat)
    requires from <= to && to + k <= a.Length
    modifies a
    ensures forall p :: 0 <= p < from + k ==> a[p] == old(a[p])
    ensures forall p :: from + k <= p < to + k ==> a[p] == old(a[p - k])
    ensures forall p :: to + k <= p < a.Length ==> a[p] == old(a[p])
  {
    var j := to;
    while j > from
      invariant from <= j <= to
      invariant forall p :: 0 <= p < j + k ==> a[p] == old(a[p])
      invariant forall p :: j + k <= p < to + k ==> a[p] == old(a[p - k])
      invariant forall p :: to + k <= p < a.Length ==> a[p] == old(a[p])
    {
      j := j - 1;
      a[j + k] := a[j];
    }
  }

  /** Copies the characters at a[from..to] k places to the left, first first. */
  method ShiftLeft(a: array<char>, from: nat, to: nat, k: nat)
    requires k <= from <= to <= a.Length
    modifies a
    ensures forall p :: 0 <= p < from - k ==> a[p] == old(a[p])
    ensures forall p :: from - k <= p < to - k ==> a[p] == old(a[p + k])
    ensures forall p :: to - k <= p < a.Length ==> a[p] == old(a[p])
  {
    var j := from;
    while j < to
      invariant from <= j <= to
      invariant forall p :: 0 <= p < from - k ==> a[p] == old(a[p])
      invariant forall p :: from - k <= p < j - k ==> a[p] == old(a[p + k])
      invariant forall p :: j - k <= p < a.Length ==> a[p] == old(a[p])
    {
      a[j - k] := a[j];
      j := j + 1;
    }
  }

  /** Writes d over a[at..at + |d|] (the `for x < pidLength` loop). */
  method Overwrite(a: array<char>, at: nat, d: seq<char>)
    requires at + |d| <= a.Length
    modifies a
    ensures forall p :: 0 <= p < |d| ==> a[at + p] == d[p]
    ensures forall p :: 0 <= p < at ==> a[p] == old(a[p])
    ensures forall p :: at + |d| <= p < a.Length ==> a[p] == old(a[p])
  {
    for x := 0 to |d|
      invariant forall p :: 0 <= p < x ==> a[at + p] == d[p]
      invariant forall p :: 0 <= p < at ==> a[p] == old(a[p])
      invariant forall p :: at + x <= p < a.Length ==> a[p] == old(a[p])
    {
      a[at + x] := d[x];
    }
  }

  /** The userInput buffer: CMD_LINE_LENGTH characters holding a NUL-terminated line. */
  class LineBuffer {
    var data: array<char>
    var len: nat

    ghost predicate Valid()
      reads this
    {
      data.Length == CMD_LINE_LENGTH && len < data.Length
    }

    /** The line currently held, without its terminating NUL. */
    function Text(): seq<char>
      reads this, data
      requires Valid()
    {
      data[..len]
    }

    constructor ()
      ensures Valid() && fresh(data) && Text() == []
    {
      data := new char[CMD_LINE_LENGTH](_ => 0 as char);
      len := 0;
    }

    /**
     * Clears the buffer and stores one line read from the terminal
     * (the memset and fgets of smallsh.c:91, 101); fgets stores at most
     * CMD_LINE_LENGTH - 1 characters.
     */
    method Load(s: seq<char>)
      requires Valid() && |s| < CMD_LINE_LENGTH
      modifies this`len, data
      ensures Valid() && data == old(data) && Text() == s
    {
      for i := 0 to data.Length
        invariant forall p :: 0 <= p < i ==> data[p] == if p < |s| then s[p] else 0 as char
      {
        data[i] := if i < |s| then s[i] else 0 as char;
      }
      len := |s|;
      assert data[..len] == s;
    }

    /** The length the text would have after expanding every "$$" into d. */
    method ExpandedLength(d: seq<char>) returns (n: nat)
      requires Valid()
      ensures n == |Expand(Text(), d)|
    {
      ghost var t := Text();
      var i: nat := 0;
      n := 0;
      while i < len
        invariant i <= len
        invariant n + |Expand(t[i..], d)| == |Expand(t, d)|
        decreases len - i
      {
        if i + 1 < len && data[i] == '$' && data[i + 1] == '$' {
          assert StartsWithPair(t[i..]) && t[i..][2..] == t[i + 2..];
          n, i := n + |d|, i + 2;
        } else {
          assert !StartsWithPair(t[i..]) && t[i..][1..] == t[i + 1..];
          n, i := n + 1, i + 1;
        }
      }
      assert t[i..] == [];
    }

    /**
     * Moves the characters at a[from..to] so that they start at newFrom,
     * in the direction that never overwrites a character before it is read.
     */
    static method MoveTail(a: array<char>, from: nat, to: nat, newFrom: nat)
      requires from <= to <= a.Length && to - from + newFrom <= a.Length
      modifies a
      ensures forall p :: 0 <= p < from && p < newFrom ==> a[p] == old(a[p])
      ensures forall p :: newFrom <= p < to - from + newFrom ==> a[p] == old(a[p - newFrom + from])
    {
      if newFrom > from {
        ShiftRight(a, from, to, newFrom - from);
      } else if newFrom < from {
        ShiftLeft(a, from, to, from - newFrom);
      }
    }

    /** Replaces the two characters at position i by d, shifting the tail. */
    method Splice(i: nat, d: seq<char>)
      requires Valid() && i + 2 <= len && len + |d| - 2 < data.Length
      modifies this`len, data
      ensures Valid() && data == old(data)
      ensures Text() == old(Text()[..i]) + d + old(Text()[i + 2..])
    {
      ghost var pre := data[..];
      ghost var target := Text()[..i] + d + Text()[i + 2..];
      var m := |d|;
      MoveTail(data, i + 2, len, i + m);
      ghost var mid := data[..];
      assert forall p :: 0 <= p < i ==> mid[p] == pre[p];
      assert forall p :: i + m <= p < len + m - 2 ==> mid[p] == pre[p - m + 2];
      Overwrite(data, i, d);
      len := len + m - 2;
      assert |target| == len;
      forall p | 0 <= p < len
        ensures data[p] == target[p]
      {
        if p < i {
          assert data[p] == mid[p] && target[p] == pre[p];
        } else if p < i + m {
          assert data[i + (p - i)] == d[p - i];
          assert target[p] == d[p - i];
        } else {
          assert data[p] == mid[p] && target[p] == pre[p - m + 2];
        }
      }
      assert data[..len] == target;
    }

    /**
     * expand$$ with the intended contract: when the expanded line fits in
     * the buffer (with its NUL), the buffer ends up holding exactly the
     * expansion of the old line; otherwise nothing is written and the
     * outcome is a refusal (the BufferOverflow condition).
     */
    method ExpandPid(pid: nat) returns (ok: bool)
      requires Valid() && pid > 0
      modifies this`len, data
      ensures Valid() && data == old(data)
      ensures ok == (|ExpandPidText(old(Text()), pid)| < CMD_LINE_LENGTH)
      ensures Text() == if ok then ExpandPidText(old(Text()), pid) else old(Text())
    {
      var pidLength := DigitCount(pid);
      var cpid := DecimalString(pid);
      var need := ExpandedLength(cpid);
      if need >= CMD_LINE_LENGTH {
        return false;
      }
      ghost var full := Expand(Text(), cpid);
      var i: nat := 0;
      while i < len
        invariant Valid() && data == old(data)
        invariant i <= len
        invariant full == Text()[..i] + Expand(Text()[i..], cpid)
        decreases len - i
      {
        ghost var t := Text();
        if i + 1 < len && data[i] == '$' && data[i + 1] == '$' {
          PairStep(t, i, cpid);
          Splice(i, cpid);
          i := i + pidLength;
        } else {
          CharStep(t, i, cpid);
          i := i + 1;
        }
      }
      assert Text()[i..] == [];
      return true;
    }
  }
}
