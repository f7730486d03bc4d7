/**
 * Coordinate extraction from a stroke's path description.
 *
 * A stroke path is an SVG-like string ("M 300,500 L 400,100"). The matcher
 * does not interpret its commands: it takes every maximal run of decimal
 * digits as one number, in order, so signs and decimal points act as
 * separators and every value is a non-negative integer.
 */
module Digits {

  predicate IsDigit(c: char) {
    '0' <= c <= '9'
  }

  predicate AllDigits(s: string) {
    forall i :: 0 <= i < |s| ==> IsDigit(s[i])
  }

  predicate NoDigits(s: string) {
    forall i :: 0 <= i < |s| ==> !IsDigit(s[i])
  }

  function DigitValue(c: char): (d: nat)
    requires IsDigit(c)
    ensures d < 10
  {
    c as int - '0' as int
  }

  function DigitChar(d: nat): (c: char)
    requires d < 10
    ensures IsDigit(c) && DigitValue(c) == d
  {
    (d + '0' as int) as char
  }

  /** Length of the maximal run of digits at the front of `s`. */
  function RunLength(s: string): (k: nat)
    ensures k <= |s|
    ensures s != [] && IsDigit(s[0]) ==> k > 0
    decreases |s|
  {
    if s != [] && IsDigit(s[0]) then 1 + RunLength(s[1..]) else 0
  }

  /** The leading run is all digits and is maximal. */
  lemma {:induction false} RunLengthIsMaximalRun(s: string)
    ensures AllDigits(s[..RunLength(s)])
    ensures RunLength(s) < |s| ==> !IsDigit(s[RunLength(s)])
    decreases |s|
  {
    if s != [] && IsDigit(s[0]) {
      RunLengthIsMaximalRun(s[1..]);
      var k' := RunLength(s[1..]);
      assert s[..k' + 1] == [s[0]] + s[1..][..k'];
    }
  }

  /** The number a run of digits denotes (leading zeros do not matter). */
  function DecimalValue(ds: string): nat
    requires AllDigits(ds)
    decreases |ds|
  {
    if ds == [] then 0
    else DecimalValue(ds[..|ds| - 1]) * 10 + DigitValue(ds[|ds| - 1])
  }

  /** The numbers of a path string: one per maximal run of digits, in order. */
  function DigitRuns(s: string): (ns: seq<nat>)
    ensures |ns| <= |s|
    decreases |s|
  {
    if s == [] then []
    else if !IsDigit(s[0]) then DigitRuns(s[1..])
    else
      var k := RunLength(s);
      RunLengthIsMaximalRun(s);
      [DecimalValue(s[..k])] + DigitRuns(s[k..])
  }

  /** Shortest decimal spelling of `n`. */
  function Decimal(n: nat): (ds: string)
    ensures ds != [] && AllDigits(ds)
    decreases n
  {
    if n < 10 then [DigitChar(n)] else Decimal(n / 10) + [DigitChar(n % 10)]
  }

  /**
   * The head of a path as the stroke table writes it: "M x0,y0 <cmd> x1,y1",
   * a move to the first point and a command whose first point is the second.
   */
  function PathHead(x0: nat, y0: nat, cmd: string, x1: nat, y1: nat): string {
    "M " + Decimal(x0) + "," + Decimal(y0) + " " + cmd + " " + Decimal(x1) + "," + Decimal(y1)
  }

  /** A straight stroke: "M x0,y0 L x1,y1". */
  function LinePath(x0: nat, y0: nat, x1: nat, y1: nat): string {
    PathHead(x0, y0, "L", x1, y1)
  }

  /** Numbers written one after another, each followed by a single space. */
  function SpaceSeparated(ns: seq<nat>): string
    decreases |ns|
  {
    if ns == [] then "" else Decimal(ns[0]) + " " + SpaceSeparated(ns[1..])
  }

  lemma {:induction false} DecimalValueOfDecimal(n: nat)
    ensures DecimalValue(Decimal(n)) == n
    decreases n
  {
    var ds := Decimal(n);
    if n >= 10 {
      DecimalValueOfDecimal(n / 10);
      assert ds[..|ds| - 1] == Decimal(n / 10);
    }
  }

  lemma {:induction false} RunLengthOfDigits(s: string)
    requires AllDigits(s)
    ensures RunLength(s) == |s|
    decreases |s|
  {
    if s != [] {
      RunLengthOfDigits(s[1..]);
    }
  }

  /** A run ending before the end of `a`, or stopped by `b`, is unaffected by appending `b`. */
  lemma {:induction false} RunLengthAppend(a: string, b: string)
    requires RunLength(a) < |a| || b == [] || !IsDigit(b[0])
    ensures RunLength(a + b) == RunLength(a)
    decreases |a|
  {
    if a == [] {
      assert a + b == b;
    } else if IsDigit(a[0]) {
      assert (a + b)[1..] == a[1..] + b;
      RunLengthAppend(a[1..], b);
    }
  }

  lemma {:induction false} DigitRunsOfSeparators(s: string)
    requires NoDigits(s)
    ensures DigitRuns(s) == []
    decreases |s|
  {
    if s != [] {
      DigitRunsOfSeparators(s[1..]);
    }
  }

  /**
   * Splitting a string where a digit run cannot straddle the cut splits
   * its numbers at the same place.
   */
  lemma {:induction false} DigitRunsAppend(a: string, b: string)
    requires a == [] || b == [] || !IsDigit(a[|a| - 1]) || !IsDigit(b[0])
    ensures DigitRuns(a + b) == DigitRuns(a) + DigitRuns(b)
    decreases |a|
  {
    if a == [] {
      assert a + b == b;
    } else if !IsDigit(a[0]) {
      assert (a + b)[1..] == a[1..] + b;
      DigitRunsAppend(a[1..], b);
    } else {
      var k := RunLength(a);
      var rest := a[k..];
      RunLengthIsMaximalRun(a);
      if k == |a| {
        assert IsDigit(a[|a| - 1]) by { assert a[..k][|a| - 1] == a[|a| - 1]; }
      } else {
        assert rest[|rest| - 1] == a[|a| - 1];
      }
      RunLengthAppend(a, b);
      DigitRunsAppend(rest, b);
      DigitRunsAfterRun(a, b, k);
    }
  }

  /** One step of DigitRunsAppend: the leading run of `a` is read whole, then the rest. */
  lemma DigitRunsAfterRun(a: string, b: string, k: nat)
    requires a != [] && IsDigit(a[0])
    requires k == RunLength(a) == RunLength(a + b)
    requires DigitRuns(a[k..] + b) == DigitRuns(a[k..]) + DigitRuns(b)
    ensures DigitRuns(a + b) == DigitRuns(a) + DigitRuns(b)
  {
    DigitRunsOfLeadingRun(a, k);
    LeadingRunOfAppend(a, b, k);
    var x := DecimalValue(a[..k]);
    var ra, rb := DigitRuns(a[k..]), DigitRuns(b);
    assert [x] + (ra + rb) == ([x] + ra) + rb;
  }

  /** A digit run at the front of `a` that stops inside `a` is read the same in `a + b`. */
  lemma LeadingRunOfAppend(a: string, b: string, k: nat)
    requires a != [] && IsDigit(a[0])
    requires k == RunLength(a) == RunLength(a + b)
    requires AllDigits(a[..k])
    ensures DigitRuns(a + b) == [DecimalValue(a[..k])] + DigitRuns(a[k..] + b)
  {
    var s := a + b;
    assert s[0] == a[0];
    DigitRunsOfLeadingRun(s, k);
    SlicesOfAppend(a, b, k);
  }

  /** Reading a string that starts with a digit: its leading run, then the rest. */
  lemma DigitRunsOfLeadingRun(s: string, k: nat)
    requires s != [] && IsDigit(s[0])
    requires k == RunLength(s)
    ensures AllDigits(s[..k])
    ensures DigitRuns(s) == [DecimalValue(s[..k])] + DigitRuns(s[k..])
  {
    RunLengthIsMaximalRun(s);
  }

  lemma SlicesOfAppend(a: string, b: string, k: nat)
    requires k <= |a|
    ensures (a + b)[..k] == a[..k]
    ensures (a + b)[k..] == a[k..] + b
  {
  }

  lemma DigitRunsOfDecimal(n: nat)
    ensures DigitRuns(Decimal(n)) == [n]
  {
    var ds := Decimal(n);
    RunLengthOfDigits(ds);
    DecimalValueOfDecimal(n);
    assert ds[..|ds|] == ds;
    assert ds[|ds|..] == [];
  }

  /** Round trip: numbers written with a space after each are read back unchanged. */
  lemma {:induction false} DigitRunsOfSpaceSeparated(ns: seq<nat>)
    ensures DigitRuns(SpaceSeparated(ns)) == ns
    decreases |ns|
  {
    if ns != [] {
      var head := Decimal(ns[0]);
      DigitRunsAppend(head + " ", SpaceSeparated(ns[1..]));
      DigitRunsAppend(head, " ");
      DigitRunsOfDecimal(ns[0]);
      DigitRunsOfSeparators(" ");
      DigitRunsOfSpaceSeparated(ns[1..]);
    }
  }

  /** Round trip for a path head: whatever digit-free command sits between the two points, the numbers are the four coordinates. */
  lemma DigitRunsOfPathHead(x0: nat, y0: nat, cmd: string, x1: nat, y1: nat)
    requires NoDigits(cmd)
    ensures DigitRuns(PathHead(x0, y0, cmd, x1, y1)) == [x0, y0, x1, y1]
  {
    var a, b, c, d := Decimal(x0), Decimal(y0), Decimal(x1), Decimal(y1);
    DigitRunsOfDecimal(x0);
    DigitRunsOfDecimal(y0);
    DigitRunsOfDecimal(x1);
    DigitRunsOfDecimal(y1);
    DigitRunsOfSeparators("M ");
    DigitRunsOfSeparators(",");
    DigitRunsOfSeparators(" ");
    DigitRunsOfSeparators(cmd);
    var s1 := "M " + a;
    var s2 := s1 + ",";
    var s3 := s2 + b;
    var s4 := s3 + " ";
    var s5 := s4 + cmd;
    var s6 := s5 + " ";
    var s7 := s6 + c;
    var s8 := s7 + ",";
    DigitRunsAppend("M ", a);
    DigitRunsAppend(s1, ",");
    DigitRunsAppend(s2, b);
    DigitRunsAppend(s3, " ");
    DigitRunsAppend(s4, cmd);
    DigitRunsAppend(s5, " ");
    DigitRunsAppend(s6, c);
    DigitRunsAppend(s7, ",");
    DigitRunsAppend(s8, d);
  }

  /** Round trip for a straight stroke: its path string yields exactly its four coordinates. */
  lemma DigitRunsOfLinePath(x0: nat, y0: nat, x1: nat, y1: nat)
    ensures DigitRuns(LinePath(x0, y0, x1, y1)) == [x0, y0, x1, y1]
  {
    DigitRunsOfPathHead(x0, y0, "L", x1, y1);
  }

  /**
   * Any non-empty run of non-digits, a minus sign or a decimal point
   * included, separates two numbers, and leading non-digits are skipped:
   * "-12.5" reads as the two numbers 12 and 5.
   */
  lemma SignAndPointAreSeparators(pre: string, a: nat, sep: string, b: nat)
    requires NoDigits(pre)
    requires NoDigits(sep) && sep != []
    ensures DigitRuns(pre + Decimal(a) + sep + Decimal(b)) == [a, b]
  {
    DigitRunsOfSeparators(pre);
    DigitRunsOfSeparators(sep);
    DigitRunsOfDecimal(a);
    DigitRunsOfDecimal(b);
    DigitRunsAppend(pre, Decimal(a));
    DigitRunsAppend(pre + Decimal(a), sep);
    var s := pre + Decimal(a) + sep;
    assert s[|s| - 1] == sep[|sep| - 1];
    DigitRunsAppend(s, Decimal(b));
  }
}
