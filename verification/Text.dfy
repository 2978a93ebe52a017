/** The character and number conventions of the C library in the "C" locale. */
module Text {
  import opened Options

  predicate IsSpace(c: char) {
    c == ' ' || c == '\t' || c == '\n' || c == '\U{0B}' || c == '\U{0C}' || c == '\r'
  }

  function TrimRight(s: string): (r: string)
    ensures |r| <= |s| && r == s[..|r|]
  {
    if s != "" && IsSpace(s[|s| - 1]) then TrimRight(s[..|s| - 1]) else s
  }

  function TrimLeft(s: string): (r: string)
    ensures |r| <= |s| && r == s[|s| - |r|..]
  {
    if s != "" && IsSpace(s[0]) then TrimLeft(s[1..]) else s
  }

  predicate IsDigit(c: char) {
    '0' <= c <= '9'
  }

  /** The number that the digits at the start of `s` make, after the number `n`. */
  function Digits(s: string, n: nat): nat {
    if s == "" || !IsDigit(s[0]) then n else Digits(s[1..], 10 * n + (s[0] as int - '0' as int))
  }

  /** `atoi`: blanks, a sign, digits; anything after them is ignored. */
  function Atoi(s: string): int {
    var t := TrimLeft(s);
    if t != "" && t[0] == '-' then (var n: int := Digits(t[1..], 0); -n)
    else if t != "" && t[0] == '+' then Digits(t[1..], 0)
    else Digits(t, 0)
  }

  /** `stoi` finds a number: a digit comes first, after blanks and a sign. */
  predicate HasNumber(s: string) {
    var t := TrimLeft(s);
    var u := if t != "" && (t[0] == '-' || t[0] == '+') then t[1..] else t;
    u != "" && IsDigit(u[0])
  }

  /** A number in decimal. */
  function Dec(n: nat): (s: string)
    ensures s != "" && forall i :: 0 <= i < |s| ==> IsDigit(s[i])
  {
    var last := ('0' as int + n % 10) as char;
    if n < 10 then [last] else Dec(n / 10) + [last]
  }

  lemma {:induction false} DigitsConcat(s: string, t: string, n: nat)
    requires forall i :: 0 <= i < |s| ==> IsDigit(s[i])
    ensures Digits(s + t, n) == Digits(t, Digits(s, n))
    decreases |s|
  {
    if s == "" {
      assert s + t == t;
    } else {
      assert (s + t)[0] == s[0] && (s + t)[1..] == s[1..] + t;
      DigitsConcat(s[1..], t, 10 * n + (s[0] as int - '0' as int));
    }
  }

  lemma {:induction false} DigitsOne(c: char, n: nat)
    requires IsDigit(c)
    ensures Digits([c], n) == 10 * n + (c as int - '0' as int)
  {
    assert [c][1..] == "";
  }

  /** Reading back a printed number. */
  lemma {:induction false} DecRead(n: nat)
    ensures Digits(Dec(n), 0) == n
    decreases n
  {
    var last := ('0' as int + n % 10) as char;
    if n >= 10 {
      DecRead(n / 10);
      DigitsConcat(Dec(n / 10), [last], 0);
      DigitsOne(last, n / 10);
    } else {
      DigitsOne(last, 0);
    }
  }

  lemma {:induction false} DecParse(n: nat)
    ensures HasNumber(Dec(n)) && Atoi(Dec(n)) == n
  {
    DecRead(n);
    assert IsDigit(Dec(n)[0]);
  }

  /** What `<<` prints for an `int`. */
  function DecInt(x: int): (s: string)
    ensures s != "" && ':' !in s && '\n' !in s
  {
    if x < 0 then "-" + Dec(-x) else Dec(x)
  }

  /** `stoi`: no value (an exception) without a number, or for one that is no 32-bit `int`. */
  function Stoi(s: string): Option<int> {
    if HasNumber(s) && -0x8000_0000 <= Atoi(s) < 0x8000_0000 then Some(Atoi(s)) else None
  }

  lemma {:induction false} MinusParse(d: string, n: nat)
    requires d != "" && IsDigit(d[0]) && Digits(d, 0) == n
    ensures HasNumber("-" + d) && Atoi("-" + d) == 0 - n
  {
    var s := "-" + d;
    assert s[0] == '-' && s[1..] == d;
    assert TrimLeft(s) == s;
  }

  lemma {:induction false} StoiIs(s: string, x: int)
    requires HasNumber(s) && Atoi(s) == x
    ensures Stoi(s) == if -0x8000_0000 <= x < 0x8000_0000 then Some(x) else None
  {
  }

  /** `stoi` reads back exactly the printed numbers that fit. */
  lemma {:induction false} StoiDecInt(x: int)
    ensures Stoi(DecInt(x)) == if -0x8000_0000 <= x < 0x8000_0000 then Some(x) else None
  {
    if x < 0 {
      DecRead(-x);
      MinusParse(Dec(-x), -x);
    } else {
      DecParse(x);
    }
    StoiIs(DecInt(x), x);
  }
}
