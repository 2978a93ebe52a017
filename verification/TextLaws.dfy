/** What the C library's conventions come to, in characters. */
module TextLaws {
  import opened Options
  import opened Text

  /** The blanks of the "C" locale. */
  const BLANKS: set<char> := {' ', '\t', '\n', '\U{0B}', '\U{0C}', '\r'}

  predicate Blank(s: string) {
    forall i :: 0 <= i < |s| ==> s[i] in BLANKS
  }

  /** Neither end is a blank. */
  predicate Tight(s: string) {
    s == "" || (s[0] !in BLANKS && s[|s| - 1] !in BLANKS)
  }

  lemma {:induction false} TrimRightLaw(s: string, pad: string)
    requires Blank(pad) && (s == "" || s[|s| - 1] !in BLANKS)
    ensures TrimRight(s + pad) == s
    decreases |pad|
  {
    if pad == "" {
      assert s + pad == s;
    } else {
      var t := s + pad;
      assert t[|t| - 1] == pad[|pad| - 1] && t[..|t| - 1] == s + pad[..|pad| - 1];
      TrimRightLaw(s, pad[..|pad| - 1]);
    }
  }

  lemma {:induction false} TrimLeftLaw(pad: string, s: string)
    requires Blank(pad) && (s == "" || s[0] !in BLANKS)
    ensures TrimLeft(pad + s) == s
    decreases |pad|
  {
    if pad == "" {
      assert pad + s == s;
    } else {
      assert (pad + s)[0] == pad[0] && (pad + s)[1..] == pad[1..] + s;
      TrimLeftLaw(pad[1..], s);
    }
  }

  /** Blanks around a text that starts and ends without one are what the two trims take away. */
  lemma {:induction false} TrimLaw(left: string, s: string, right: string)
    requires Blank(left) && Tight(s) && Blank(right)
    ensures TrimRight(TrimLeft(left + s + right)) == s && TrimLeft(TrimRight(left + s + right)) == s
  {
    var t := left + s + right;
    if s == "" {
      assert t == (left + right) + "" && t == "" + (left + right);
      TrimLeftLaw(left + right, "");
      TrimRightLaw("", left + right);
    } else {
      assert t == left + (s + right);
      TrimLeftLaw(left, s + right);
      TrimRightLaw(s, right);
      TrimRightLaw(left + s, right);
      TrimLeftLaw(left, s);
    }
  }

  // ----- numbers --------------------------------------------------------------------------

  /** Decimal notation, digit by digit. */
  lemma {:induction false} DecLaw(n: nat)
    ensures n < 10 ==> Dec(n) == ["0123456789"[n]]
    ensures n >= 10 ==> Dec(n) == Dec(n / 10) + ["0123456789"[n % 10]]
  {
    DigitChar(n % 10);
  }

  lemma {:induction false} DigitChar(d: nat)
    requires d < 10
    ensures ('0' as int + d) as char == "0123456789"[d]
  {
  }

  /** No number can be read on from here. */
  predicate NoDigit(s: string) {
    s == "" || s[0] !in "0123456789"
  }

  lemma {:induction false} DigitsStop(s: string, junk: string, n: nat)
    requires NoDigit(junk) && forall i :: 0 <= i < |s| ==> IsDigit(s[i])
    ensures Digits(s + junk, n) == Digits(s, n)
  {
    DigitsConcat(s, junk, n);
    DigitsEnd(junk, Digits(s, n));
  }

  lemma {:induction false} DigitsEnd(junk: string, n: nat)
    requires NoDigit(junk)
    ensures Digits(junk, n) == n
  {
    if junk != "" {
      NotDigit(junk[0]);
    }
  }

  lemma {:induction false} NotDigit(c: char)
    ensures IsDigit(c) <==> c in "0123456789"
  {
    if IsDigit(c) {
      DigitChar(c as int - '0' as int);
      assert c == "0123456789"[c as int - '0' as int];
    }
  }

  /** The sign that stands before a number. */
  predicate Sign(sign: string) {
    sign == "" || sign == "+" || sign == "-"
  }

  lemma {:induction false} AfterSign(s: string, sign: string, u: string)
    requires TrimLeft(s) == sign + u && Sign(sign)
    requires sign == "" ==> u == "" || (u[0] != '+' && u[0] != '-')
    ensures Atoi(s) == if sign == "-" then 0 - Digits(u, 0) else Digits(u, 0)
    ensures HasNumber(s) <==> u != "" && IsDigit(u[0])
  {
    hide TrimLeft, Digits;
    var t := sign + u;
    if sign == "" {
      assert t == u;
    } else {
      assert t[0] == sign[0] && t[1..] == u;
    }
  }

  /** Blanks, a sign and decimal digits are read as the number; what follows is ignored. */
  lemma {:induction false} AtoiLaw(pad: string, sign: string, n: nat, junk: string)
    requires Blank(pad) && Sign(sign) && NoDigit(junk)
    ensures Atoi(pad + sign + Dec(n) + junk) == if sign == "-" then 0 - n else n
    ensures HasNumber(pad + sign + Dec(n) + junk)
  {
    hide Digits, TrimLeft, Atoi, HasNumber;
    var d := Dec(n) + junk;
    assert pad + sign + Dec(n) + junk == pad + (sign + d);
    DecRead(n);
    DigitsStop(Dec(n), junk, 0);
    assert d[0] == Dec(n)[0] && IsDigit(d[0]);
    NotDigit(d[0]);
    FirstAfterSign(sign, d);
    TrimLeftLaw(pad, sign + d);
    AfterSign(pad + sign + Dec(n) + junk, sign, d);
  }

  lemma {:induction false} FirstAfterSign(sign: string, u: string)
    requires Sign(sign) && u != "" && u[0] in "0123456789"
    ensures (sign + u)[0] !in BLANKS && u[0] != '+' && u[0] != '-'
  {
    assert (sign + u)[0] == if sign == "" then u[0] else sign[0];
  }

  /** Without a digit in its place there is no number, and `atoi` says 0. */
  lemma {:induction false} NoNumber(pad: string, sign: string, junk: string)
    requires Blank(pad) && Sign(sign) && NoDigit(junk)
    requires sign == "" ==> junk == "" || (junk[0] !in BLANKS && junk[0] != '+' && junk[0] != '-')
    ensures !HasNumber(pad + sign + junk) && Atoi(pad + sign + junk) == 0
  {
    hide Digits, TrimLeft, Atoi, HasNumber;
    assert pad + sign + junk == pad + (sign + junk);
    assert sign + junk != "" ==> (sign + junk)[0] == if sign == "" then junk[0] else sign[0];
    TrimLeftLaw(pad, sign + junk);
    if junk != "" {
      NotDigit(junk[0]);
    }
    DigitsEnd(junk, 0);
    AfterSign(pad + sign + junk, sign, junk);
  }
}
