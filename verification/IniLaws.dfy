/** What each kind of line does to the parser, in characters: the blanks, delimiters, comment
    signs and lengths are written out. */
module IniLaws {
  import opened Ini
  import opened IniTheorems
  import opened Text
  import opened TextLaws

  /** Neither a newline nor a NUL. */
  predicate Inside(s: string) {
    forall i :: 0 <= i < |s| ==> s[i] != '\n' && s[i] != '\0'
  }

  /** No `;` after a blank. */
  predicate NoComment(s: string) {
    forall i :: 0 < i < |s| ==> !(s[i] == ';' && s[i - 1] in BLANKS)
  }

  /** The state after a call of the handler. */
  function Told(st: State, prev: string, name: string, value: string, lineno: nat, h: Handler): State {
    var e := Event(st.section, name, value);
    State(st.section, if |prev| < 50 then prev else prev[..49], st.events + [e],
          if st.error == 0 && !h(st.events, e) then lineno else st.error)
  }

  /** The state after a line that is refused. */
  function Refused(st: State, lineno: nat): State {
    State(st.section, st.prevName, st.events, if st.error == 0 then lineno else st.error)
  }

  /** A whole line that fits the buffer of 200 characters, and that is not the first line of a
      file with a byte-order mark. */
  predicate WholeLineAt(line: string, lineno: nat) {
    && 0 < |line| <= 199 && line[|line| - 1] == '\n' && Inside(line[..|line| - 1])
    && (lineno == 0 ==> line[0] != '\U{EF}')
  }

  // ----- lines and their texts ------------------------------------------------------------

  /** The next line is what precedes and includes the next newline, up to 199 characters. */
  lemma {:induction false} NextPiece(s: string, rest: string)
    requires 0 < |s| <= 199 && forall i :: 0 <= i < |s| - 1 ==> s[i] != '\n'
    requires |s| == 199 || s[|s| - 1] == '\n'
    ensures Pieces(s + rest) == [s] + Pieces(rest)
  {
    PieceAt(s, rest, 200);
    assert (s + rest)[..|s|] == s && (s + rest)[|s|..] == rest;
  }

  lemma {:induction false} PieceAt(s: string, rest: string, num: nat)
    requires 0 < |s| < num && forall i :: 0 <= i < |s| - 1 ==> s[i] != '\n'
    requires |s| == num - 1 || s[|s| - 1] == '\n'
    ensures PieceLength(s + rest, num) == |s|
    decreases |s|
  {
    assert (s + rest)[0] == s[0];
    if s[0] != '\n' {
      assert (s + rest)[1..] == s[1..] + rest;
      if |s| > 1 {
        PieceAt(s[1..], rest, num - 1);
      } else {
        assert PieceLength((s + rest)[1..], 1) == 0;
      }
    }
  }

  lemma {:induction false} OneMore(st: State, line: string, rest: string, lineno: nat, h: Handler)
    requires WholeLineAt(line, lineno)
    ensures Parse(st, line + rest, lineno, h) == Parse(LineStep(st, line, lineno + 1, h), rest, lineno + 1, h)
  {
    var n := |line| - 1;
    assert forall i :: 0 <= i < n ==> line[i] == line[..n][i];
    NextPiece(line, rest);
    NoNul(line);
    assert ([line] + Pieces(rest))[0] == line && ([line] + Pieces(rest))[1..] == Pieces(rest);
  }

  /** A line is blanks, a text, and blanks with the newline. */
  lemma {:induction false} LineText(pad: string, core: string, tail: string, lineno: nat)
    requires Blank(pad) && Tight(core) && Blank(tail)
    requires lineno == 1 ==> pad + core + tail == "" || (pad + core + tail)[0] != '\U{EF}'
    ensures Stripped(pad + core + tail, lineno) == core
    ensures core != "" ==> Indent(pad + core + tail, lineno) == |pad|
  {
    var line := pad + core + tail;
    assert SkipBom(line, lineno) == line by {
      assert lineno == 1 && |line| >= 3 ==> line[..3][0] == line[0];
    }
    TrimLaw(pad, core, tail);
    if core != "" {
      TrimRightLaw(pad + core, tail);
    }
  }

  lemma {:induction false} ToPlain(s: string, chars: string)
    requires Inside(s) && NoComment(s) && forall i :: 0 <= i < |s| ==> s[i] !in chars
    ensures Plain(s, chars)
  {
    forall i | 0 <= i < |s|
      ensures s[i] !in chars && s[i] != '\n' && s[i] != '\0' && !(i > 0 && IsSpace(s[i - 1]) && s[i] == ';')
    {
      assert i > 0 && s[i] == ';' ==> s[i - 1] !in BLANKS;
    }
  }

  // ----- name and value --------------------------------------------------------------------

  /** A name that can stand at the start of a line. */
  predicate GoodName(name: string) {
    && name != "" && Tight(name) && Inside(name) && NoComment(name)
    && name[0] !in "[;#" && forall i :: 0 <= i < |name| ==> name[i] !in "=:"
  }

  predicate GoodValue(value: string, before: string) {
    Tight(value) && Inside(value) && NoComment(value) && (before != "" && value != "" ==> value[0] != ';')
  }

  predicate Pad(s: string) {
    Blank(s) && Inside(s)
  }

  lemma {:induction false} PadNoComment(s: string, pad: string)
    requires Pad(pad) && Inside(s) && NoComment(s)
    ensures Inside(s + pad) && NoComment(s + pad)
  {
  }

  lemma {:induction false} NameFound(st: State, name: string, a: string, d: char, s: string, lineno: nat, h: Handler)
    requires GoodName(name) && Pad(a) && (d == '=' || d == ':')
    ensures PairStep(st, name + a + [d] + s, lineno, h) ==
            Call(st.(prevName := Cut(name, 50)), Event(st.section, name, Value(s)), h, lineno)
  {
    var core := name + a + [d] + s;
    PadNoComment(name, a);
    ToPlain(name + a, "=:");
    FindInPlain(name + a, [d] + s, "=:", false);
    assert core == (name + a) + ([d] + s);
    assert core[..|name + a|] == name + a && core[|name + a| + 1..] == s;
    TrimRightLaw(name, a);
  }

  lemma {:induction false} ValueFound(b: string, value: string, c: string)
    requires Pad(b) && Pad(c) && GoodValue(value, b)
    ensures Value(b + value + c) == value
  {
    var s := b + value + c;
    assert NoComment(s) && Inside(s);
    ToPlain(s, "");
    FindInPlain(s, "", "", false);
    assert s + "" == s && s[..|s|] == s;
    TrimLaw(b, value, c);
  }

  lemma {:induction false} FindComment(s: string, junk: string, spaced: bool)
    requires Plain(s, "") && (spaced && s != "" ==> s[0] != ';')
    requires if s == "" then spaced else s[|s| - 1] in BLANKS
    ensures Find(s + ";" + junk, "", spaced) == |s|
    decreases |s|
  {
    var t := s + ";" + junk;
    if s != "" {
      assert t[0] == s[0] && t[1..] == s[1..] + ";" + junk;
      assert forall i :: 0 <= i < |s[1..]| ==> s[1..][i] == s[i + 1];
      FindComment(s[1..], junk, IsSpace(s[0]));
    }
  }

  lemma {:induction false} CommentFound(b: string, value: string, p: string, junk: string)
    requires Pad(b) && Pad(p) && p != "" && GoodValue(value, b)
    ensures Value(b + value + p + ";" + junk) == value
  {
    var s := b + value + p;
    assert NoComment(s) && Inside(s);
    ToPlain(s, "");
    FindComment(s, junk, false);
    assert (s + ";" + junk)[..|s|] == s;
    TrimLaw(b, value, p);
  }

  lemma {:induction false} PairIsPair(st: State, core: string, indented: bool, lineno: nat, h: Handler)
    requires core != "" && core[0] !in "[;#" && !(st.prevName != "" && indented)
    ensures TextStep(st, core, indented, lineno, h) == PairStep(st, core, lineno, h)
  {
  }

  lemma {:induction false} CallIsTold(st: State, prev: string, name: string, value: string, lineno: nat, h: Handler)
    ensures Call(st.(prevName := Cut(prev, 50)), Event(st.section, name, value), h, lineno) == Told(st, prev, name, value, lineno, h)
  {
  }

  lemma {:induction false} StepOfText(st: State, line: string, core: string, indent: nat, lineno: nat, h: Handler)
    requires Stripped(line, lineno) == core && (core != "" ==> Indent(line, lineno) == indent)
    ensures LineStep(st, line, lineno, h) == TextStep(st, core, indent > 0, lineno, h)
  {
    hide Stripped, Indent, PairStep, SectionStep;
  }

  lemma {:induction false} NoMark(line: string, lineno: nat)
    requires WholeLineAt(line, lineno)
    ensures lineno == 0 ==> line == "" || line[0] != '\U{EF}'
  {
  }

  /** A line does what its text does. */
  lemma {:induction false} TextParsed(st: State, line: string, pad: string, core: string, tail: string,
                                      rest: string, lineno: nat, h: Handler)
    requires WholeLineAt(line, lineno) && line == pad + core + tail
    requires Blank(pad) && Tight(core) && Blank(tail)
    ensures Parse(st, line + rest, lineno, h) == Parse(TextStep(st, core, pad != "", lineno + 1, h), rest, lineno + 1, h)
  {
    hide Parse, LineStep, TextStep, Stripped, Indent, WholeLineAt, Blank, Tight;
    OneMore(st, line, rest, lineno, h);
    NoMark(line, lineno);
    LineText(pad, core, tail, lineno + 1);
    StepOfText(st, line, core, |pad|, lineno + 1, h);
  }

  lemma {:induction false} PairDoes(st: State, name: string, a: string, d: char, s: string, value: string, lineno: nat, h: Handler)
    requires GoodName(name) && Pad(a) && (d == '=' || d == ':') && Value(s) == value
    ensures TextStep(st, name + a + [d] + s, false, lineno, h) == Told(st, name, name, value, lineno, h)
  {
    hide TextStep, PairStep, Value, Call, Told;
    var core := name + a + [d] + s;
    assert core[0] == name[0];
    PairIsPair(st, core, false, lineno, h);
    NameFound(st, name, a, d, s, lineno, h);
    CallIsTold(st, name, name, value, lineno, h);
  }

  /** The text of a pair line, and the blanks after it. */
  lemma {:induction false} PairTight(name: string, a: string, d: char, s: string)
    requires GoodName(name) && (d == '=' || d == ':') && (s == "" || s[|s| - 1] !in BLANKS)
    ensures Tight(name + a + [d] + s)
  {
    var core := name + a + [d] + s;
    assert core[0] == name[0] && core[|core| - 1] == if s == "" then d else s[|s| - 1];
  }

  /** `name = value` with any blanks around both, or with a colon. */
  lemma {:induction false} PaddedPair(st: State, name: string, a: string, d: char, b: string, value: string, c: string,
                                      rest: string, lineno: nat, h: Handler)
    requires GoodName(name) && GoodValue(value, b) && Pad(a) && Pad(b) && Pad(c) && (d == '=' || d == ':')
    requires WholeLineAt(name + a + [d] + b + value + c + "\n", lineno)
    ensures Parse(st, (name + a + [d] + b + value + c + "\n") + rest, lineno, h) ==
            Parse(Told(st, name, name, value, lineno + 1, h), rest, lineno + 1, h)
  {
    hide Parse, Value, Told, WholeLineAt;
    var line := name + a + [d] + b + value + c + "\n";
    if value == "" {
      ValueFound("", "", "");
      assert "" + "" + "" == "" && line == name + a + [d] + "" + (b + c + "\n");
      PairLineDoes(st, line, name, a, d, "", "", b + c + "\n", rest, lineno, h);
    } else {
      ValueFound(b, value, "");
      assert b + value + "" == b + value && line == name + a + [d] + (b + value) + (c + "\n");
      PairLineDoes(st, line, name, a, d, b + value, value, c + "\n", rest, lineno, h);
    }
  }

  lemma {:induction false} Regroup(head: string, b: string, value: string, p: string, junk: string, q: string)
    ensures head + b + value + p + ";" + junk + q + "\n" == head + (b + value + p + ";" + junk) + (q + "\n")
  {
    assert head + b + value + p == head + (b + value + p);
    assert head + (b + value + p) + ";" + junk == head + (b + value + p + ";" + junk);
  }

  lemma {:induction false} PairLineDoes(st: State, line: string, name: string, a: string, d: char, s: string, value: string,
                                        tail: string, rest: string, lineno: nat, h: Handler)
    requires GoodName(name) && Pad(a) && (d == '=' || d == ':') && Value(s) == value
    requires (s == "" || s[|s| - 1] !in BLANKS) && Blank(tail)
    requires WholeLineAt(line, lineno) && line == name + a + [d] + s + tail
    ensures Parse(st, line + rest, lineno, h) == Parse(Told(st, name, name, value, lineno + 1, h), rest, lineno + 1, h)
  {
    hide Parse, TextStep, Value, Told;
    var core := name + a + [d] + s;
    assert line == "" + core + tail;
    PairTight(name, a, d, s);
    PairDoes(st, name, a, d, s, value, lineno + 1, h);
    TextParsed(st, line, "", core, tail, rest, lineno, h);
  }

  /** An inline comment: a blank and a semicolon end the value. */
  lemma {:induction false} CommentedPair(st: State, name: string, a: string, d: char, b: string, value: string, p: string,
                                         junk: string, q: string, rest: string, lineno: nat, h: Handler)
    requires GoodName(name) && GoodValue(value, b) && Pad(a) && Pad(b) && Pad(p) && p != "" && (d == '=' || d == ':')
    requires Inside(junk) && (junk == "" || junk[|junk| - 1] !in BLANKS) && Pad(q)
    requires WholeLineAt(name + a + [d] + b + value + p + ";" + junk + q + "\n", lineno)
    ensures Parse(st, (name + a + [d] + b + value + p + ";" + junk + q + "\n") + rest, lineno, h) ==
            Parse(Told(st, name, name, value, lineno + 1, h), rest, lineno + 1, h)
  {
    hide Parse, Value, Told, WholeLineAt, GoodName;
    var s := b + value + p + ";" + junk;
    Regroup(name + a + [d], b, value, p, junk, q);
    assert s[|s| - 1] == if junk == "" then ';' else junk[|junk| - 1];
    CommentFound(b, value, p, junk);
    PairLineDoes(st, name + a + [d] + b + value + p + ";" + junk + q + "\n", name, a, d, s, value, q + "\n", rest, lineno, h);
  }

  // ----- the other lines ----------------------------------------------------------------------

  /** Blank lines, and lines whose first character that is no blank is `;` or `#`, do nothing. */
  lemma {:induction false} SilentLine(st: State, pad: string, text: string, q: string, rest: string, lineno: nat, h: Handler)
    requires Pad(pad) && Inside(text) && (text == "" || (text[0] in ";#" && text[|text| - 1] !in BLANKS)) && Pad(q)
    requires WholeLineAt(pad + text + q + "\n", lineno)
    ensures Parse(st, (pad + text + q + "\n") + rest, lineno, h) == Parse(st, rest, lineno + 1, h)
  {
    hide Parse;
    var line := pad + text + q + "\n";
    assert line == pad + text + (q + "\n");
    TextParsed(st, line, pad, text, q + "\n", rest, lineno, h);
  }

  /** An indented text continues the value of the previous name; nothing is cut from it but the
      blanks around it. */
  lemma {:induction false} Continuation(st: State, pad: string, text: string, q: string, rest: string, lineno: nat, h: Handler)
    requires 0 < |st.prevName| < 50
    requires Pad(pad) && pad != "" && text != "" && Tight(text) && Inside(text) && text[0] !in ";#" && Pad(q)
    requires WholeLineAt(pad + text + q + "\n", lineno)
    ensures Parse(st, (pad + text + q + "\n") + rest, lineno, h) ==
            Parse(Told(st, st.prevName, st.prevName, text, lineno + 1, h), rest, lineno + 1, h)
  {
    hide Parse;
    var line := pad + text + q + "\n";
    assert line == pad + text + (q + "\n");
    TextParsed(st, line, pad, text, q + "\n", rest, lineno, h);
    CallIsTold(st, st.prevName, st.prevName, text, lineno + 1, h);
    assert Cut(st.prevName, 50) == st.prevName && st.(prevName := st.prevName) == st;
  }

  lemma {:induction false} SectionDoes(st: State, name: string, junk: string, indented: bool, lineno: nat, h: Handler)
    requires !(indented && st.prevName != "")
    requires Inside(name) && NoComment(name) && forall i :: 0 <= i < |name| ==> name[i] != ']'
    ensures TextStep(st, "[" + name + "]" + junk, indented, lineno, h) ==
            State(if |name| < 50 then name else name[..49], "", st.events, st.error)
  {
    var core := "[" + name + "]" + junk;
    assert core[0] == '[' && core[1..] == name + ("]" + junk);
    ToPlain(name, "]");
    FindInPlain(name, "]" + junk, "]", false);
    assert core[1..1 + |name|] == name && core[1 + |name|] == ']';
  }

  /** A section line: the name is what stands before the first `]`, cut at 49 characters; what
      follows is ignored. */
  lemma {:induction false} SectionNamed(st: State, pad: string, name: string, junk: string, q: string,
                                        rest: string, lineno: nat, h: Handler)
    requires Pad(pad) && (pad == "" || st.prevName == "")
    requires Inside(name) && NoComment(name) && forall i :: 0 <= i < |name| ==> name[i] != ']'
    requires Inside(junk) && (junk == "" || junk[|junk| - 1] !in BLANKS) && Pad(q)
    requires WholeLineAt(pad + ("[" + name + "]" + junk) + q + "\n", lineno)
    ensures Parse(st, (pad + ("[" + name + "]" + junk) + q + "\n") + rest, lineno, h) ==
            Parse(State(if |name| < 50 then name else name[..49], "", st.events, st.error), rest, lineno + 1, h)
  {
    hide Parse, TextStep;
    var core := "[" + name + "]" + junk;
    var line := pad + core + q + "\n";
    assert line == pad + core + (q + "\n");
    assert core[0] == '[' && core[|core| - 1] == if junk == "" then ']' else junk[|junk| - 1];
    TextParsed(st, line, pad, core, q + "\n", rest, lineno, h);
    SectionDoes(st, name, junk, pad != "", lineno + 1, h);
  }

  lemma {:induction false} FindNothing(s: string, chars: string, spaced: bool)
    requires forall i :: 0 <= i < |s| ==> s[i] !in chars
    ensures Find(s, chars, spaced) < |s| ==> s[Find(s, chars, spaced)] !in chars
  {
    if s != "" && Find(s, chars, spaced) > 0 {
      assert forall i :: 0 <= i < |s[1..]| ==> s[1..][i] == s[i + 1];
      FindNothing(s[1..], chars, IsSpace(s[0]));
    }
  }

  lemma {:induction false} BracketDoes(st: State, name: string, lineno: nat, h: Handler)
    requires forall i :: 0 <= i < |name| ==> name[i] !in "]"
    ensures TextStep(st, "[" + name, false, lineno, h) == Refused(st, lineno)
  {
    var core := "[" + name;
    assert core[0] == '[' && core[1..] == name;
    FindNothing(name, "]", false);
    var i := Find(name, "]", false);
    assert 1 + i < |core| ==> core[1 + i] == name[i];
  }

  /** A section line without `]` is an error and changes nothing else. */
  lemma {:induction false} BracketMissing(st: State, name: string, q: string, rest: string, lineno: nat, h: Handler)
    requires Inside(name) && (forall i :: 0 <= i < |name| ==> name[i] !in "]") && (name == "" || name[|name| - 1] !in BLANKS) && Pad(q)
    requires WholeLineAt("[" + name + q + "\n", lineno)
    ensures Parse(st, ("[" + name + q + "\n") + rest, lineno, h) == Parse(Refused(st, lineno + 1), rest, lineno + 1, h)
  {
    hide Parse, TextStep;
    var core := "[" + name;
    var line := "[" + name + q + "\n";
    assert line == "" + core + (q + "\n");
    assert core[|core| - 1] == if name == "" then '[' else name[|name| - 1];
    TextParsed(st, line, "", core, q + "\n", rest, lineno, h);
    BracketDoes(st, name, lineno + 1, h);
  }

  lemma {:induction false} NoPairDoes(st: State, text: string, lineno: nat, h: Handler)
    requires text != "" && text[0] !in "[;#" && forall i :: 0 <= i < |text| ==> text[i] !in "=:"
    ensures TextStep(st, text, false, lineno, h) == Refused(st, lineno)
  {
    FindNothing(text, "=:", false);
    var i := Find(text, "=:", false);
    assert i < |text| ==> text[i] != '=' && text[i] != ':';
  }

  /** A line that is no section, no comment and has no delimiter is an error. */
  lemma {:induction false} DelimiterMissing(st: State, text: string, q: string, rest: string, lineno: nat, h: Handler)
    requires text != "" && Tight(text) && Inside(text) && text[0] !in "[;#" && Pad(q)
    requires forall i :: 0 <= i < |text| ==> text[i] !in "=:"
    requires WholeLineAt(text + q + "\n", lineno)
    ensures Parse(st, (text + q + "\n") + rest, lineno, h) == Parse(Refused(st, lineno + 1), rest, lineno + 1, h)
  {
    hide Parse, TextStep;
    var line := text + q + "\n";
    assert line == "" + text + (q + "\n");
    TextParsed(st, line, "", text, q + "\n", rest, lineno, h);
    NoPairDoes(st, text, lineno + 1, h);
  }

  /** A byte-order mark at the very beginning is skipped. */
  lemma {:induction false} ByteOrderMark(line: string, rest: string, h: Handler)
    requires WholeLineAt(line, 0) && |line| <= 196
    ensures Parse(START, "\U{EF}\U{BB}\U{BF}" + line + rest, 0, h) == Parse(START, line + rest, 0, h)
  {
    hide LineStep;
    var long := "\U{EF}\U{BB}\U{BF}" + line;
    LongLine(line);
    assert "\U{EF}\U{BB}\U{BF}" + line + rest == long + rest;
    NextPiece(long, rest);
    NoNul(long);
    assert ([long] + Pieces(rest))[0] == long && ([long] + Pieces(rest))[1..] == Pieces(rest);
    OneMore(START, line, rest, 0, h);
    MarkSkipped(line, h);
  }

  lemma {:induction false} LongLine(line: string)
    requires WholeLineAt(line, 0)
    ensures var long := "\U{EF}\U{BB}\U{BF}" + line;
            && long[|long| - 1] == '\n' && (forall i :: 0 <= i < |long| - 1 ==> long[i] != '\n')
            && (forall i :: 0 <= i < |long| ==> long[i] != '\0')
  {
    var long := "\U{EF}\U{BB}\U{BF}" + line;
    forall i | 0 <= i < |long|
      ensures i < |long| - 1 ==> long[i] != '\n'
      ensures long[i] != '\0'
    {
      if i >= 3 {
        assert long[i] == line[i - 3];
        assert i - 3 < |line| - 1 ==> line[i - 3] == line[..|line| - 1][i - 3];
      }
    }
  }

  lemma {:induction false} MarkSkipped(line: string, h: Handler)
    requires line != "" && line[0] != '\U{EF}'
    ensures LineStep(START, "\U{EF}\U{BB}\U{BF}" + line, 1, h) == LineStep(START, line, 1, h)
  {
    var long := "\U{EF}\U{BB}\U{BF}" + line;
    assert long[..3] == ['\U{EF}', '\U{BB}', '\U{BF}'] && long[3..] == line;
    assert SkipBom(line, 1) == line by {
      assert |line| >= 3 ==> line[..3][0] == line[0];
    }
    assert SkipBom(long, 1) == line;
    SameText(Stripped(long, 1), Indent(long, 1) > 0, Indent(line, 1) > 0, 1, h);
  }

  lemma {:induction false} SameText(text: string, x: bool, y: bool, lineno: nat, h: Handler)
    ensures TextStep(START, text, x, lineno, h) == TextStep(START, text, y, lineno, h)
  {
  }
}
