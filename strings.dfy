/**
 * Python string primitives the pipeline relies on: `str.isspace`, `str.strip`,
 * `str.upper`, `"\n".join`, `str(int)` and the integer strings that
 * `pandas.to_numeric` accepts.
 */
module Strings {
  import opened Wrappers

  /**
   * Python's `str.isspace` on one character: the ASCII blanks and the
   * Unicode separators, never a letter, a digit, a sign or a comma.
   */
  predicate IsSpace(c: char)
    ensures c == ' ' || c == '\t' || c == '\n' || c == '\r' ==> IsSpace(c)
    ensures ('0' <= c <= '9') || ('a' <= c <= 'z') || ('A' <= c <= 'Z') || c == ',' || c == '-' || c == '+' ==> !IsSpace(c)
  {
    || ('\t' <= c <= '\r')
    || ('\U{1C}' <= c <= ' ')
    || c == '\U{85}' || c == '\U{A0}' || c == '\U{1680}'
    || ('\U{2000}' <= c <= '\U{200A}')
    || c == '\U{2028}' || c == '\U{2029}' || c == '\U{202F}' || c == '\U{205F}' || c == '\U{3000}'
  }

  /** Every character is whitespace: `not s.strip()` in Python. */
  predicate IsBlank(s: string) {
    forall i :: 0 <= i < |s| ==> IsSpace(s[i])
  }

  /** Neither starts nor ends with whitespace. */
  predicate IsStripped(s: string) {
    s == [] || (!IsSpace(s[0]) && !IsSpace(s[|s| - 1]))
  }

  /** How many whitespace characters `s` starts with. */
  function LeadingSpaces(s: string): (n: nat)
    ensures n <= |s|
    ensures forall i :: 0 <= i < n ==> IsSpace(s[i])
    ensures n == |s| || !IsSpace(s[n])
  {
    if s != [] && IsSpace(s[0]) then
      var n := LeadingSpaces(s[1..]);
      assert forall i :: 1 <= i < n + 1 ==> s[i] == s[1..][i - 1];
      n + 1
    else
      0
  }

  /** How many whitespace characters `s` ends with. */
  function TrailingSpaces(s: string): (n: nat)
    ensures n <= |s|
    ensures forall i :: |s| - n <= i < |s| ==> IsSpace(s[i])
    ensures n == |s| || !IsSpace(s[|s| - n - 1])
  {
    if s != [] && IsSpace(s[|s| - 1]) then
      var n := TrailingSpaces(s[..|s| - 1]);
      assert forall i :: 0 <= i < |s| - 1 ==> s[i] == s[..|s| - 1][i];
      n + 1
    else
      0
  }

  /**
   * `s.strip()`: the infix of `s` between its leading and its trailing
   * whitespace; it neither starts nor ends with whitespace, and it is empty
   * exactly when `s` is blank.
   */
  function Strip(s: string): (r: string)
    ensures IsStripped(r)
    ensures |r| <= |s|
    ensures r == [] <==> IsBlank(s)
  {
    var a := LeadingSpaces(s);
    if a == |s| then []
    else
      var b := TrailingSpaces(s);
      s[a..|s| - b]
  }

  /** The stripped text is the infix of `s` between two blank margins. */
  lemma StripInfix(s: string) returns (i: nat)
    ensures i + |Strip(s)| <= |s|
    ensures Strip(s) == s[i..i + |Strip(s)|]
    ensures IsBlank(s[..i]) && IsBlank(s[i + |Strip(s)|..])
  {
    i := LeadingSpaces(s);
    if i < |s| {
      var b := TrailingSpaces(s);
      var j := |s| - b;
      assert |Strip(s)| == j - i;
      assert forall k :: 0 <= k < |s[j..]| ==> s[j..][k] == s[j + k];
    }
  }

  /** Stripping text that is already stripped changes nothing. */
  lemma StripStripped(s: string)
    requires IsStripped(s)
    ensures Strip(s) == s
  {
    if s != [] {
      assert LeadingSpaces(s) == 0;
      assert TrailingSpaces(s) == 0;
    }
  }

  /** Python's `str.upper` on one character (ASCII and the Latin-1 letters). */
  function UpperChar(c: char): (u: char)
    ensures IsSpace(u) <==> IsSpace(c)
    ensures 'a' <= c <= 'z' ==> 'A' <= u <= 'Z' && u as int == c as int - 32
    ensures c as int < 0xE0 && !('a' <= c <= 'z') ==> u == c
  {
    if 'a' <= c <= 'z' || ('\U{E0}' <= c <= '\U{FE}' && c != '\U{F7}') then
      (c as int - 32) as char
    else
      c
  }

  /** `s.upper()`, character by character. */
  function Upper(s: string): (r: string)
    ensures |r| == |s|
    ensures forall i :: 0 <= i < |s| ==> r[i] == UpperChar(s[i])
    ensures IsBlank(r) <==> IsBlank(s)
  {
    seq(|s|, i requires 0 <= i < |s| => UpperChar(s[i]))
  }

  /**
   * Upper-casing never turns a character into whitespace or back, so a
   * stripped text stays stripped; and upper-casing twice is upper-casing once.
   */
  lemma UpperKeepsStripped(s: string)
    ensures IsStripped(Upper(s)) <==> IsStripped(s)
    ensures Upper(Upper(s)) == Upper(s)
  {
    forall i | 0 <= i < |s|
      ensures IsSpace(UpperChar(s[i])) <==> IsSpace(s[i])
      ensures UpperChar(UpperChar(s[i])) == UpperChar(s[i])
    {
    }
  }

  /** The total length of the texts. */
  function TotalLength(ts: seq<string>): (n: nat) {
    if ts == [] then 0 else |ts[0]| + TotalLength(ts[1..])
  }

  /** `"\n".join(ts)`: the texts in order, one newline between neighbours. */
  function JoinLines(ts: seq<string>): (joined: string)
    ensures ts != [] ==> ts[0] <= joined
    ensures |ts| == 1 ==> joined == ts[0]
    ensures |joined| == if ts == [] then 0 else TotalLength(ts) + |ts| - 1
  {
    if ts == [] then []
    else if |ts| == 1 then ts[0]
    else ts[0] + "\n" + JoinLines(ts[1..])
  }

  /** Joining two non-empty lists of texts joins their joins with one more newline. */
  lemma {:induction false} JoinLinesAppend(a: seq<string>, b: seq<string>)
    requires a != [] && b != []
    ensures JoinLines(a + b) == JoinLines(a) + "\n" + JoinLines(b)
  {
    assert (a + b)[0] == a[0];
    if |a| == 1 {
      assert (a + b)[1..] == b;
    } else {
      assert (a + b)[1..] == a[1..] + b;
      JoinLinesAppend(a[1..], b);
    }
  }

  /** The joined text is blank exactly when every joined text is blank. */
  lemma {:induction false} JoinLinesBlank(ts: seq<string>)
    ensures IsBlank(JoinLines(ts)) <==> forall i :: 0 <= i < |ts| ==> IsBlank(ts[i])
  {
    if |ts| > 1 {
      JoinLinesBlank(ts[1..]);
      var rest := JoinLines(ts[1..]);
      var j := ts[0] + "\n" + rest;
      assert JoinLines(ts) == j;
      if IsBlank(j) {
        assert IsBlank(ts[0]) by {
          forall k | 0 <= k < |ts[0]| ensures IsSpace(ts[0][k]) { assert j[k] == ts[0][k]; }
        }
        assert IsBlank(rest) by {
          forall k | 0 <= k < |rest| ensures IsSpace(rest[k]) { assert j[|ts[0]| + 1 + k] == rest[k]; }
        }
        forall i | 0 <= i < |ts| ensures IsBlank(ts[i]) {
          if i > 0 { assert ts[i] == ts[1..][i - 1]; }
        }
      }
      if forall i :: 0 <= i < |ts| ==> IsBlank(ts[i]) {
        assert IsBlank(ts[0]);
        forall i | 0 <= i < |ts| - 1 ensures IsBlank(ts[1..][i]) { assert ts[1..][i] == ts[i + 1]; }
        assert IsBlank(rest);
        forall k | 0 <= k < |j| ensures IsSpace(j[k]) {
          if k < |ts[0]| { assert j[k] == ts[0][k]; }
          else if k > |ts[0]| { assert j[k] == rest[k - |ts[0]| - 1]; }
        }
      }
    }
  }

  predicate IsDigit(c: char) {
    '0' <= c <= '9'
  }

  predicate AllDigits(s: string) {
    forall i :: 0 <= i < |s| ==> IsDigit(s[i])
  }

  function DigitChar(d: nat): (c: char)
    requires d < 10
    ensures IsDigit(c)
  {
    ('0' as int + d) as char
  }

  /** The value of a string of decimal digits, most significant first. */
  function DigitsValue(s: string): (n: nat)
    requires AllDigits(s)
  {
    if s == [] then 0 else DigitsValue(s[..|s| - 1]) * 10 + (s[|s| - 1] as int - '0' as int)
  }

  /** `str(n)` for a natural number. */
  function NatText(n: nat): (s: string)
    ensures s != [] && AllDigits(s)
    ensures |s| == 1 <==> n < 10
    ensures |s| > 1 ==> s[0] != '0'
  {
    if n < 10 then [DigitChar(n)] else NatText(n / 10) + [DigitChar(n % 10)]
  }

  /** `str(n)` for any integer. */
  function IntText(n: int): (s: string)
    ensures s != [] && (s[0] == '-' <==> n < 0)
  {
    if n < 0 then "-" + NatText(-n) else NatText(n)
  }

  /**
   * The integer a string denotes for `pandas.to_numeric`: an optional sign
   * followed by one or more decimal digits; anything else is not a number.
   */
  function ParseInt(s: string): (r: Option<int>)
    ensures r.Some? ==> s != [] && AllDigits(s[1..]) && (IsDigit(s[0]) || s[0] == '-' || s[0] == '+')
    ensures r.Some? && r.value < 0 ==> s[0] == '-'
    ensures s != [] && AllDigits(s) ==> r == Some(DigitsValue(s))
    ensures |s| > 1 && (s[0] == '-' || s[0] == '+') && AllDigits(s[1..]) ==>
      r == Some(if s[0] == '-' then 0 - DigitsValue(s[1..]) else DigitsValue(s[1..]))
    ensures (forall i :: 0 <= i < |s| ==> !IsDigit(s[i])) ==> r.None?
  {
    if s != [] && (s[0] == '-' || s[0] == '+') then
      if |s| > 1 && AllDigits(s[1..]) then
        Some(if s[0] == '-' then 0 - DigitsValue(s[1..]) else DigitsValue(s[1..]))
      else
        None
    else if s != [] && AllDigits(s) then
      Some(DigitsValue(s))
    else
      None
  }

  lemma {:induction false} NatTextValue(n: nat)
    ensures DigitsValue(NatText(n)) == n
  {
    if n >= 10 {
      NatTextValue(n / 10);
      var s := NatText(n);
      assert s[..|s| - 1] == NatText(n / 10);
    }
  }

  /** Parsing the text of an integer gives the integer back. */
  lemma ParseIntText(n: int)
    ensures ParseInt(IntText(n)) == Some(n)
  {
    var s := IntText(n);
    if n < 0 {
      NatTextValue(-n);
      var digits := NatText(-n);
      assert s == "-" + digits && s[1..] == digits;
      assert s[0] == '-' && |s| > 1 && AllDigits(s[1..]);
    } else {
      NatTextValue(n);
      assert IsDigit(s[0]) && AllDigits(s);
    }
  }
}
