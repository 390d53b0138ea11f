/**
 * The pieces of the Rust standard library that `remove` relies on to read a
 * `cgroup.procs` file: `i32`, `str::lines` and `<i32 as FromStr>::from_str`,
 * together with the decimal form in which the kernel lists pids.
 */
module RustStr {
  import opened Wrappers

  newtype i32 = x: int | -0x8000_0000 <= x < 0x8000_0000

  predicate IsDigit(c: char) {
    '0' <= c <= '9'
  }

  function DigitValue(c: char): (d: nat)
    requires IsDigit(c)
    ensures d < 10
  {
    (c as int) - ('0' as int)
  }

  function DigitChar(d: nat): (c: char)
    requires d < 10
    ensures IsDigit(c) && DigitValue(c) == d
  {
    ((('0' as int) + d) as char)
  }

  predicate AllDigits(s: string) {
    forall i :: 0 <= i < |s| ==> IsDigit(s[i])
  }

  /** The number a run of decimal digits denotes, most significant digit first. */
  function DigitsValue(s: string): nat
    requires AllDigits(s)
    decreases |s|
  {
    if s == [] then 0 else 10 * DigitsValue(s[..|s| - 1]) + DigitValue(s[|s| - 1])
  }

  /**
   * `line.parse::<i32>()`: an optional '+' or '-', then one or more ASCII
   * digits (leading zeros allowed, no white space), whose value fits in 32 bits.
   */
  function ParseI32(s: string): (r: Option<i32>)
    ensures s == [] ==> r == None
    ensures r.Some? ==> forall i :: 0 < i < |s| ==> IsDigit(s[i])
    ensures r.Some? && r.value < 0 ==> s[0] == '-'
  {
    if s == [] then None
    else
      var digits := if s[0] == '+' || s[0] == '-' then s[1..] else s;
      if digits == [] || !AllDigits(digits) then None
      else
        var v: int := if s[0] == '-' then 0 - (DigitsValue(digits) as int) else DigitsValue(digits);
        if -0x8000_0000 <= v < 0x8000_0000 then Some(v as i32) else None
  }

  /** A leading zero does not change the value of a run of digits. */
  lemma {:induction false} LeadingZero(s: string)
    requires AllDigits(s)
    ensures AllDigits("0" + s) && DigitsValue("0" + s) == DigitsValue(s)
    decreases |s|
  {
    if s != [] {
      var t := "0" + s;
      assert t[..|t| - 1] == "0" + s[..|s| - 1];
      LeadingZero(s[..|s| - 1]);
    }
  }

  /** A '+' sign and leading zeros are accepted and change nothing. */
  lemma ParsePlusAndZeros(n: nat)
    requires n < 0x8000_0000
    ensures ParseI32("+" + NatDigits(n)) == Some(n as i32)
    ensures ParseI32("0" + NatDigits(n)) == Some(n as i32)
  {
    var d := NatDigits(n);
    assert ("+" + d)[1..] == d;
    LeadingZero(d);
  }

  /** Concrete strings that are and are not pids. */
  lemma ParseExamples()
    ensures ParseI32("+7") == Some(7) && ParseI32("007") == Some(7) && ParseI32("-12") == Some(-12)
    ensures ParseI32("+") == None && ParseI32("-") == None && ParseI32("") == None
    ensures ParseI32(" 7") == None && ParseI32("7 ") == None && ParseI32("7\r") == None && ParseI32("+-7") == None
  {
    assert "+7"[1..] == "7" && "7"[..0] == [];
    assert "007"[..2] == "00" && "00"[..1] == "0" && "0"[..0] == [];
    assert "-12"[1..] == "12" && "12"[..1] == "1" && "1"[..0] == [];
    assert "+-7"[1..] == "-7";
  }

  /** The shortest decimal numeral of a natural number. */
  function NatDigits(n: nat): (s: string)
    ensures s != [] && AllDigits(s)
    ensures DigitsValue(s) == n
    decreases n
  {
    if n < 10 then [DigitChar(n)]
    else
      var s := NatDigits(n / 10) + [DigitChar(n % 10)];
      assert s[..|s| - 1] == NatDigits(n / 10);
      s
  }

  /** `Display` for an integer: how the kernel writes a pid into `cgroup.procs`. */
  function ToDecimal(n: int): (s: string)
    ensures s != []
    ensures forall i :: 0 <= i < |s| ==> s[i] == '-' || IsDigit(s[i])
  {
    if n < 0 then "-" + NatDigits(-n) else NatDigits(n)
  }

  /** Parsing reads back every 32-bit value that was written in decimal. */
  lemma ParseToDecimal(n: i32)
    ensures ParseI32(ToDecimal(n as int)) == Some(n)
  {
    var s := ToDecimal(n as int);
    if n < 0 {
      assert s[1..] == NatDigits(-(n as int));
    } else {
      assert IsDigit(s[0]);
    }
  }

  /** A decimal numeral outside the 32-bit range is refused, whatever its sign. */
  lemma ParseOutOfRange(n: int)
    requires n < -0x8000_0000 || 0x8000_0000 <= n
    ensures ParseI32(ToDecimal(n)) == None
  {
    var s := ToDecimal(n);
    if n < 0 {
      assert s[1..] == NatDigits(-n);
    } else {
      assert IsDigit(s[0]);
    }
  }

  /** The position of the first line feed of `s`, or `|s|` when there is none. */
  function NewlineIndex(s: string): (k: nat)
    ensures k <= |s|
    ensures k < |s| ==> s[k] == '\n'
    ensures forall i :: 0 <= i < k ==> s[i] != '\n'
    decreases |s|
  {
    if s == [] || s[0] == '\n' then 0 else 1 + NewlineIndex(s[1..])
  }

  predicate EndsWithCr(l: string) {
    |l| > 0 && l[|l| - 1] == '\r'
  }

  /** Drops one carriage return at the end of a line. */
  function StripCr(l: string): (r: string)
    ensures r == l || (EndsWithCr(l) && r == l[..|l| - 1])
  {
    if EndsWithCr(l) then l[..|l| - 1] else l
  }

  /**
   * `str::lines`: the pieces between line feeds, with no empty piece after a
   * final line feed, each without a trailing carriage return.
   */
  function Lines(s: string): (ls: seq<string>)
    ensures s == [] <==> ls == []
    ensures forall i :: 0 <= i < |ls| ==> '\n' !in ls[i]
    decreases |s|
  {
    if s == [] then []
    else
      var k := NewlineIndex(s);
      assert forall c :: c in s[..k] ==> c != '\n';
      if k == |s| then [StripCr(s)]
      else [StripCr(s[..k])] + Lines(s[k + 1..])
  }

  /** The text whose lines are `ls`, each followed by a line feed. */
  function Unlines(ls: seq<string>): string
    decreases |ls|
  {
    if ls == [] then [] else ls[0] + "\n" + Unlines(ls[1..])
  }

  /** `lines` undoes `Unlines` for lines with no line feed and no trailing carriage return. */
  lemma {:induction false} LinesUnlines(ls: seq<string>)
    requires forall i :: 0 <= i < |ls| ==> '\n' !in ls[i] && !EndsWithCr(ls[i])
    ensures Lines(Unlines(ls)) == ls
    decreases |ls|
  {
    if ls != [] {
      var s := Unlines(ls);
      var l := ls[0];
      assert s == l + "\n" + Unlines(ls[1..]);
      assert forall i :: 0 <= i < |l| ==> s[i] == l[i] && s[i] != '\n';
      assert s[|l|] == '\n';
      assert NewlineIndex(s) == |l| by {
        NewlineIndexAt(s, |l|);
      }
      assert s[..|l|] == l;
      assert s[|l| + 1..] == Unlines(ls[1..]);
      LinesUnlines(ls[1..]);
    }
  }

  lemma {:induction false} NewlineIndexAt(s: string, k: nat)
    requires k < |s| && s[k] == '\n'
    requires forall i :: 0 <= i < k ==> s[i] != '\n'
    ensures NewlineIndex(s) == k
    decreases |s|
  {
    if k > 0 {
      NewlineIndexAt(s[1..], k - 1);
    }
  }

  /** A decimal numeral has no line feed and does not end in a carriage return. */
  lemma DecimalIsOneLine(n: int)
    ensures '\n' !in ToDecimal(n) && !EndsWithCr(ToDecimal(n))
  {
    var s := ToDecimal(n);
    assert s[|s| - 1] == '-' || IsDigit(s[|s| - 1]);
  }
}
