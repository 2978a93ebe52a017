/** Laws of the INI parser over all inputs. */
module IniTheorems {
  import opened Ini
  import opened Text

  // ----- the reader ---------------------------------------------------------------

  function Join(ps: seq<string>): string {
    if ps == [] then "" else ps[0] + Join(ps[1..])
  }

  /** A piece fits the buffer, ends at its first newline if it has one, and falls short of
      the buffer without a newline only if it is the last. */
  predicate GoodPiece(p: string, last: bool) {
    && 0 < |p| <= MAX_LINE - 1
    && (forall i :: 0 <= i < |p| - 1 ==> p[i] != '\n')
    && (|p| < MAX_LINE - 1 && p[|p| - 1] != '\n' ==> last)
  }

  lemma {:induction false} PieceLengthLaw(s: string, num: nat)
    ensures num > 1 && s != "" ==> 0 < PieceLength(s, num) <= num - 1
    ensures forall i :: 0 <= i < PieceLength(s, num) - 1 ==> s[i] != '\n'
    ensures num > 1 && PieceLength(s, num) < num - 1 && PieceLength(s, num) < |s| ==> s[PieceLength(s, num) - 1] == '\n'
    decreases |s|
  {
    if num > 1 && s != "" && s[0] != '\n' {
      PieceLengthLaw(s[1..], num - 1);
    }
  }

  /** Reading cuts the input into pieces and loses nothing. */
  lemma {:induction false} PiecesPartition(s: string)
    ensures Join(Pieces(s)) == s
    ensures forall i :: 0 <= i < |Pieces(s)| ==> GoodPiece(Pieces(s)[i], i == |Pieces(s)| - 1)
    decreases |s|
  {
    if s != "" {
      PieceLengthLaw(s, MAX_LINE);
      var n := PieceLength(s, MAX_LINE);
      PiecesPartition(s[n..]);
      var rest := Pieces(s[n..]);
      assert Pieces(s) == [s[..n]] + rest;
      assert rest == [] ==> s[n..] == "";
      forall i | 0 <= i < |Pieces(s)|
        ensures GoodPiece(Pieces(s)[i], i == |Pieces(s)| - 1)
      {
        if i > 0 {
          assert Pieces(s)[i] == rest[i - 1];
        }
      }
    }
  }

  // ----- parsing is compositional ------------------------------------------------------

  predicate EndsLine(s: string) {
    s != "" && s[|s| - 1] == '\n'
  }

  lemma {:induction false} PieceLengthPrefix(a: string, b: string, num: nat)
    requires EndsLine(a)
    ensures PieceLength(a + b, num) == PieceLength(a, num)
    decreases |a|
  {
    if num > 1 && a[0] != '\n' {
      assert (a + b)[1..] == a[1..] + b;
      PieceLengthPrefix(a[1..], b, num - 1);
    }
  }

  lemma {:induction false} FirstPiece(s: string)
    requires s != ""
    ensures Pieces(s) == [s[..PieceLength(s, MAX_LINE)]] + Pieces(s[PieceLength(s, MAX_LINE)..])
  {
    PieceLengthLaw(s, MAX_LINE);
  }

  lemma {:induction false} PiecesConcat(a: string, b: string)
    requires a == "" || EndsLine(a)
    ensures Pieces(a + b) == Pieces(a) + Pieces(b)
    decreases |a|
  {
    if a == "" {
      assert a + b == b;
    } else {
      hide Pieces, PieceLength;
      PieceLengthPrefix(a, b, MAX_LINE);
      PieceLengthLaw(a, MAX_LINE);
      var n := PieceLength(a, MAX_LINE);
      FirstPiece(a);
      FirstPiece(a + b);
      CutBoth(a, b, n);
      PiecesConcat(a[n..], b);
      assert [a[..n]] + (Pieces(a[n..]) + Pieces(b)) == [a[..n]] + Pieces(a[n..]) + Pieces(b);
    }
  }

  lemma {:induction false} CutBoth(a: string, b: string, n: nat)
    requires n <= |a|
    ensures (a + b)[..n] == a[..n] && (a + b)[n..] == a[n..] + b
    ensures EndsLine(a) ==> a[n..] == "" || EndsLine(a[n..])
  {
  }

  lemma {:induction false} FoldConcat(turn: Turn, st: State, x: seq<string>, y: seq<string>, lineno: nat)
    ensures Fold(turn, st, x + y, lineno) == Fold(turn, Fold(turn, st, x, lineno), y, lineno + |x|)
    decreases |x|
  {
    if x == [] {
      assert x + y == y;
    } else {
      assert (x + y)[0] == x[0] && (x + y)[1..] == x[1..] + y;
      FoldConcat(turn, turn(st, x[0], lineno + 1), x[1..], y, lineno + 1);
    }
  }

  /** Parsing a text that ends with a line and then the rest is parsing them together,
      whatever a turn does; `Parse` is the case of `LineTurn`. */
  lemma {:induction false} FoldLinesConcat(turn: Turn, st: State, a: string, b: string, lineno: nat)
    requires a == "" || EndsLine(a)
    ensures FoldLines(turn, st, a + b, lineno) ==
            FoldLines(turn, FoldLines(turn, st, a, lineno), b, lineno + |Pieces(a)|)
  {
    PiecesConcat(a, b);
    FoldConcat(turn, st, Pieces(a), Pieces(b), lineno);
  }

  // ----- the first error ---------------------------------------------------------------------

  function WithError(st: State, e: nat): State {
    st.(error := e)
  }

  /** A turn that reports its own line, and to which an earlier error makes no difference
      but for the number that is reported. */
  ghost predicate Reports(turn: Turn) {
    forall st: State, piece, lineno: nat :: lineno > 0 ==>
      && (turn(WithError(st, 0), piece, lineno).error == 0 || turn(WithError(st, 0), piece, lineno).error == lineno)
      && turn(st, piece, lineno) ==
         WithError(turn(WithError(st, 0), piece, lineno),
                   if st.error != 0 then st.error else turn(WithError(st, 0), piece, lineno).error)
  }

  lemma {:induction false} TextReports(st: State, text: string, indented: bool, lineno: nat, h: Handler)
    requires lineno > 0
    ensures var clean := TextStep(WithError(st, 0), text, indented, lineno, h);
            && (clean.error == 0 || clean.error == lineno)
            && TextStep(st, text, indented, lineno, h) == WithError(clean, if st.error != 0 then st.error else clean.error)
  {
    assert st == WithError(WithError(st, 0), st.error);
  }

  lemma {:induction false} LinesReport(h: Handler)
    ensures Reports(LineTurn(h))
  {
    forall st: State, piece: string, lineno: nat | lineno > 0
      ensures var clean := LineTurn(h)(WithError(st, 0), piece, lineno);
              && (clean.error == 0 || clean.error == lineno)
              && LineTurn(h)(st, piece, lineno) == WithError(clean, if st.error != 0 then st.error else clean.error)
    {
      var line := CString(piece);
      TextReports(st, Stripped(line, lineno), Indent(line, lineno) > 0, lineno, h);
    }
  }

  /** Line `k` is refused, by the parser or by the handler. */
  predicate BadLine(turn: Turn, ps: seq<string>, k: nat)
    requires k < |ps|
  {
    turn(WithError(Fold(turn, START, ps[..k], 0), 0), ps[k], k + 1).error != 0
  }

  /** The number of the first bad line, or 0. */
  ghost predicate FirstBad(turn: Turn, ps: seq<string>, e: nat) {
    && e <= |ps|
    && (e == 0 ==> forall k :: 0 <= k < |ps| ==> !BadLine(turn, ps, k))
    && (e > 0 ==> BadLine(turn, ps, e - 1) && forall k :: 0 <= k < e - 1 ==> !BadLine(turn, ps, k))
  }

  lemma {:induction false} Reported(turn: Turn, st: State, piece: string, lineno: nat) returns (clean: nat)
    requires Reports(turn) && lineno > 0
    ensures clean == turn(WithError(st, 0), piece, lineno).error && (clean == 0 || clean == lineno)
    ensures turn(st, piece, lineno).error == if st.error != 0 then st.error else clean
  {
    clean := turn(WithError(st, 0), piece, lineno).error;
  }

  lemma {:induction false} FirstBadReported(turn: Turn, ps: seq<string>)
    requires Reports(turn)
    ensures FirstBad(turn, ps, Fold(turn, START, ps, 0).error)
    decreases |ps|
  {
    if ps != [] {
      var n := |ps| - 1;
      var pre, last := ps[..n], ps[n];
      FirstBadReported(turn, pre);
      assert ps == pre + [last];
      FoldConcat(turn, START, pre, [last], 0);
      var before := Fold(turn, START, pre, 0);
      assert Fold(turn, before, [last], n) == turn(before, last, n + 1);
      var clean := Reported(turn, before, last, n + 1);
      assert BadLine(turn, ps, n) <==> clean != 0;
      forall k | 0 <= k < n
        ensures BadLine(turn, ps, k) == BadLine(turn, pre, k)
      {
        assert ps[..k] == pre[..k] && ps[k] == pre[k];
      }
      FirstBadExtended(turn, pre, ps, before.error, clean);
    }
  }

  lemma {:induction false} FirstBadExtended(turn: Turn, pre: seq<string>, ps: seq<string>, e: nat, clean: nat)
    requires |ps| == |pre| + 1 && FirstBad(turn, pre, e)
    requires forall k :: 0 <= k < |pre| ==> BadLine(turn, ps, k) == BadLine(turn, pre, k)
    requires BadLine(turn, ps, |pre|) <==> clean != 0
    requires clean == 0 || clean == |ps|
    ensures FirstBad(turn, ps, if e != 0 then e else clean)
  {
  }

  /** The result is 0 if no line is bad, and else the number of the first bad one. */
  lemma {:induction false} FirstErrorReported(input: string, h: Handler)
    ensures FirstBad(LineTurn(h), Pieces(input), Parse(START, input, 0, h).error)
  {
    LinesReport(h);
    FirstBadReported(LineTurn(h), Pieces(input));
  }

  // ----- printing and parsing back ----------------------------------------------------------

  datatype Pair = Pair(name: string, value: string)
  datatype Section = Section(name: string, pairs: seq<Pair>)

  function PrintPair(p: Pair): string {
    p.name + "=" + p.value + "\n"
  }

  function PrintPairs(ps: seq<Pair>): string {
    if ps == [] then "" else PrintPair(ps[0]) + PrintPairs(ps[1..])
  }

  function PrintHeader(s: Section): string {
    "[" + s.name + "]\n"
  }

  function Print(ss: seq<Section>): string {
    if ss == [] then "" else PrintHeader(ss[0]) + PrintPairs(ss[0].pairs) + Print(ss[1..])
  }

  /** Survives the scan for one of `chars`: no such character, no inline comment, and
      neither newline nor NUL. */
  predicate Plain(s: string, chars: string) {
    forall i :: 0 <= i < |s| ==>
      s[i] !in chars && s[i] != '\n' && s[i] != '\0' && !(i > 0 && IsSpace(s[i - 1]) && s[i] == ';')
  }

  predicate Trimmed(s: string) {
    s == "" || (!IsSpace(s[0]) && !IsSpace(s[|s| - 1]))
  }

  predicate PairOk(p: Pair) {
    && Plain(p.name, "=:") && Trimmed(p.name) && (p.name == "" || p.name[0] !in "[;#")
    && Plain(p.value, "") && Trimmed(p.value)
    && |PrintPair(p)| <= MAX_LINE - 1
  }

  predicate SectionOk(s: Section) {
    && Plain(s.name, "]") && |s.name| < MAX_SECTION
    && forall i :: 0 <= i < |s.pairs| ==> PairOk(s.pairs[i])
  }

  function PairEvents(section: string, ps: seq<Pair>): seq<Event> {
    if ps == [] then [] else [Event(section, ps[0].name, ps[0].value)] + PairEvents(section, ps[1..])
  }

  function Events(ss: seq<Section>): seq<Event> {
    if ss == [] then [] else PairEvents(ss[0].name, ss[0].pairs) + Events(ss[1..])
  }

  ghost predicate AcceptsAll(h: Handler) {
    forall es, e :: h(es, e)
  }

  lemma {:induction false} FindInPlain(s: string, tail: string, chars: string, spaced: bool)
    requires Plain(s, chars) && (spaced && s != "" ==> s[0] != ';')
    requires tail == "" || tail[0] in chars
    ensures Find(s + tail, chars, spaced) == |s|
    decreases |s|
  {
    if s == "" {
      assert s + tail == tail;
    } else {
      assert (s + tail)[0] == s[0] && (s + tail)[1..] == s[1..] + tail;
      var rest := s[1..];
      assert forall i :: 0 <= i < |rest| ==> rest[i] == s[i + 1];
      assert forall i :: 0 < i < |rest| ==> rest[i - 1] == s[i];
      FindInPlain(rest, tail, chars, IsSpace(s[0]));
    }
  }

  /** A line without NUL, with one newline at its end, is one piece and one C string. */
  lemma {:induction false} WholeLine(s: string, num: nat)
    requires EndsLine(s) && |s| < num
    requires forall i :: 0 <= i < |s| - 1 ==> s[i] != '\n'
    ensures PieceLength(s, num) == |s|
    decreases |s|
  {
    if |s| > 1 {
      WholeLine(s[1..], num - 1);
    }
  }

  lemma {:induction false} NoNul(s: string)
    requires forall i :: 0 <= i < |s| ==> s[i] != '\0'
    ensures CString(s) == s
    decreases |s|
  {
    if s != "" {
      NoNul(s[1..]);
    }
  }

  lemma {:induction false} OneLine(turn: Turn, st: State, s: string, rest: string, lineno: nat)
    requires EndsLine(s) && |s| <= MAX_LINE - 1
    requires forall i :: 0 <= i < |s| - 1 ==> s[i] != '\n'
    ensures FoldLines(turn, st, s + rest, lineno) == FoldLines(turn, turn(st, s, lineno + 1), rest, lineno + 1)
  {
    WholeLine(s, MAX_LINE);
    assert s[..|s|] == s && s[|s|..] == "";
    assert Pieces(s) == [s] + Pieces("");
    FoldLinesConcat(turn, st, s, rest, lineno);
    assert Fold(turn, st, [s], lineno) == Fold(turn, turn(st, s, lineno + 1), [], lineno + 1);
  }

  lemma {:induction false} StripNewline(s: string)
    requires s != "" && !IsSpace(s[0]) && !IsSpace(s[|s| - 1])
    ensures TrimRight(s + "\n") == s && TrimLeft(s) == s
  {
    assert (s + "\n")[..|s|] == s;
  }

  lemma {:induction false} SectionStripped(name: string, lineno: nat)
    ensures Stripped("[" + name + "]\n", lineno) == "[" + name + "]"
    ensures Indent("[" + name + "]\n", lineno) == 0
  {
    var text := "[" + name + "]";
    var line := "[" + name + "]\n";
    assert line == text + "\n";
    assert SkipBom(line, lineno) == line by {
      assert |line| >= 3 ==> line[..3][0] == '[';
    }
    StripNewline(text);
  }

  lemma {:induction false} SectionParsed(st: State, name: string, lineno: nat)
    requires Plain(name, "]") && |name| < MAX_SECTION
    ensures SectionStep(st, "[" + name + "]", lineno) == st.(section := name, prevName := "")
  {
    var text := "[" + name + "]";
    assert text[1..] == name + "]";
    FindInPlain(name, "]", "]", false);
    assert text[1..1 + |name|] == name;
  }

  lemma {:induction false} SectionLine(st: State, name: string, lineno: nat, h: Handler)
    requires Plain(name, "]") && |name| < MAX_SECTION
    ensures LineStep(st, "[" + name + "]\n", lineno, h) == st.(section := name, prevName := "")
  {
    SectionStripped(name, lineno);
    SectionParsed(st, name, lineno);
  }

  lemma {:induction false} PairStripped(p: Pair, lineno: nat)
    requires PairOk(p) && lineno > 1
    ensures Stripped(PrintPair(p), lineno) == p.name + "=" + p.value && Indent(PrintPair(p), lineno) == 0
  {
    var text := p.name + "=" + p.value;
    assert PrintPair(p) == text + "\n";
    assert text[0] == if p.name == "" then '=' else p.name[0];
    assert text[|text| - 1] == if p.value == "" then '=' else p.value[|p.value| - 1];
    StripNewline(text);
  }

  lemma {:induction false} PairCut(p: Pair)
    requires PairOk(p)
    ensures var text := p.name + "=" + p.value;
            && Find(text, "=:", false) == |p.name|
            && Name(text, |p.name|) == p.name && Value(text[|p.name| + 1..]) == p.value
  {
    var text := p.name + "=" + p.value;
    assert text == p.name + ("=" + p.value);
    FindInPlain(p.name, "=" + p.value, "=:", false);
    assert text[..|p.name|] == p.name && text[|p.name| + 1..] == p.value;
    TrimmedStays(p.name);
    ValueStays(p.value);
  }

  lemma {:induction false} PairParsed(st: State, p: Pair, lineno: nat, h: Handler)
    requires PairOk(p)
    ensures PairStep(st, p.name + "=" + p.value, lineno, h) == AfterPair(st, p, lineno, h)
  {
    PairCut(p);
  }

  lemma {:induction false} ValueStays(s: string)
    requires Plain(s, "") && Trimmed(s)
    ensures Value(s) == s
  {
    FindInPlain(s, "", "", false);
    assert s + "" == s && s[..|s|] == s;
    TrimmedStays(s);
  }

  lemma {:induction false} PairLine(st: State, p: Pair, lineno: nat, h: Handler)
    requires PairOk(p) && lineno > 1
    ensures LineStep(st, PrintPair(p), lineno, h) == AfterPair(st, p, lineno, h)
  {
    var text := p.name + "=" + p.value;
    PairStripped(p, lineno);
    PairParsed(st, p, lineno, h);
    assert text[0] == if p.name == "" then '=' else p.name[0];
  }

  lemma {:induction false} TrimmedStays(s: string)
    requires Trimmed(s)
    ensures TrimRight(s) == s && TrimLeft(s) == s
  {
  }

  /** The turn does to printed lines what it should. */
  ghost predicate ReadsBack(turn: Turn, h: Handler) {
    && (forall st: State, p: Pair, lineno: nat :: PairOk(p) && lineno > 1 ==>
          turn(st, PrintPair(p), lineno) == AfterPair(st, p, lineno, h))
    && (forall st: State, s: Section, lineno: nat :: SectionOk(s) ==>
          turn(st, PrintHeader(s), lineno) == st.(section := s.name, prevName := ""))
  }

  function AfterPair(st: State, p: Pair, lineno: nat, h: Handler): State {
    Call(st.(prevName := Cut(p.name, MAX_NAME)), Event(st.section, p.name, p.value), h, lineno)
  }

  lemma {:induction false} LinesReadBack(h: Handler)
    ensures ReadsBack(LineTurn(h), h)
  {
    forall st: State, p: Pair, lineno: nat | PairOk(p) && lineno > 1
      ensures LineTurn(h)(st, PrintPair(p), lineno) == AfterPair(st, p, lineno, h)
    {
      PairChars(p);
      NoNul(PrintPair(p));
      PairLine(st, p, lineno, h);
    }
    forall st: State, s: Section, lineno: nat | SectionOk(s)
      ensures LineTurn(h)(st, PrintHeader(s), lineno) == st.(section := s.name, prevName := "")
    {
      HeaderChars(s);
      NoNul(PrintHeader(s));
      SectionLine(st, s.name, lineno, h);
    }
  }

  lemma {:induction false} PairChars(p: Pair)
    requires PairOk(p)
    ensures EndsLine(PrintPair(p))
    ensures forall i :: 0 <= i < |PrintPair(p)| ==> PrintPair(p)[i] != '\0'
    ensures forall i :: 0 <= i < |PrintPair(p)| - 1 ==> PrintPair(p)[i] != '\n'
  {
    var s := PrintPair(p);
    assert forall i :: |p.name| < i < |s| - 1 ==> s[i] == p.value[i - |p.name| - 1];
  }

  lemma {:induction false} HeaderChars(s: Section)
    requires SectionOk(s)
    ensures EndsLine(PrintHeader(s)) && |PrintHeader(s)| <= MAX_LINE - 1
    ensures forall i :: 0 <= i < |PrintHeader(s)| ==> PrintHeader(s)[i] != '\0'
    ensures forall i :: 0 <= i < |PrintHeader(s)| - 1 ==> PrintHeader(s)[i] != '\n'
  {
    var t := PrintHeader(s);
    assert forall i :: 0 < i <= |s.name| ==> t[i] == s.name[i - 1];
  }

  lemma {:induction false} PairsRoundTrip(turn: Turn, st: State, ps: seq<Pair>, rest: string, lineno: nat, h: Handler)
    returns (end: State)
    requires ReadsBack(turn, h) && lineno > 0 && forall i :: 0 <= i < |ps| ==> PairOk(ps[i])
    ensures FoldLines(turn, st, PrintPairs(ps) + rest, lineno) == FoldLines(turn, end, rest, lineno + |ps|)
    ensures end.section == st.section && end.events == st.events + PairEvents(st.section, ps)
    ensures AcceptsAll(h) ==> end.error == st.error
    decreases |ps|
  {
    hide FoldLines, AfterPair, PrintPair;
    if ps == [] {
      end := st;
      assert PrintPairs(ps) + rest == rest;
    } else {
      var p, more := ps[0], PrintPairs(ps[1..]) + rest;
      var next := AfterPair(st, p, lineno + 1, h);
      PairTurn(turn, st, p, more, lineno, h);
      assert PrintPairs(ps) + rest == PrintPair(p) + more;
      end := PairsRoundTrip(turn, next, ps[1..], rest, lineno + 1, h);
      assert st.events + [Event(st.section, p.name, p.value)] + PairEvents(st.section, ps[1..]) ==
             st.events + PairEvents(st.section, ps);
    }
  }

  lemma {:induction false} PairTurn(turn: Turn, st: State, p: Pair, more: string, lineno: nat, h: Handler)
    requires ReadsBack(turn, h) && lineno > 0 && PairOk(p)
    ensures var next := AfterPair(st, p, lineno + 1, h);
            && FoldLines(turn, st, PrintPair(p) + more, lineno) == FoldLines(turn, next, more, lineno + 1)
            && next.section == st.section && next.events == st.events + [Event(st.section, p.name, p.value)]
            && (AcceptsAll(h) ==> next.error == st.error)
  {
    PairChars(p);
    OneLine(turn, st, PrintPair(p), more, lineno);
    assert turn(st, PrintPair(p), lineno + 1) == AfterPair(st, p, lineno + 1, h);
  }

  lemma {:induction false} SectionRoundTrip(turn: Turn, st: State, s: Section, rest: string, lineno: nat, h: Handler)
    returns (end: State)
    requires ReadsBack(turn, h) && SectionOk(s)
    ensures FoldLines(turn, st, PrintHeader(s) + (PrintPairs(s.pairs) + rest), lineno) ==
            FoldLines(turn, end, rest, lineno + 1 + |s.pairs|)
    ensures end.events == st.events + PairEvents(s.name, s.pairs)
    ensures AcceptsAll(h) ==> end.error == st.error
  {
    HeaderChars(s);
    OneLine(turn, st, PrintHeader(s), PrintPairs(s.pairs) + rest, lineno);
    var inside := st.(section := s.name, prevName := "");
    end := PairsRoundTrip(turn, inside, s.pairs, rest, lineno + 1, h);
  }

  lemma {:induction false} SectionsRoundTrip(turn: Turn, st: State, ss: seq<Section>, lineno: nat, h: Handler)
    requires ReadsBack(turn, h) && forall i :: 0 <= i < |ss| ==> SectionOk(ss[i])
    ensures FoldLines(turn, st, Print(ss), lineno).events == st.events + Events(ss)
    ensures AcceptsAll(h) ==> FoldLines(turn, st, Print(ss), lineno).error == st.error
    decreases |ss|
  {
    hide PrintHeader, PairEvents, PrintPairs;
    if ss == [] {
      assert st.events + [] == st.events;
    } else {
      var s, rest := ss[0], Print(ss[1..]);
      assert Print(ss) == PrintHeader(s) + (PrintPairs(s.pairs) + rest);
      var end := SectionRoundTrip(turn, st, s, rest, lineno, h);
      SectionsRoundTrip(turn, end, ss[1..], lineno + 1 + |s.pairs|, h);
    }
  }

  /** Round trip: what is printed is what the handler is told, in order; and if the handler
      refuses nothing, no error is reported. */
  lemma {:induction false} PrintParse(ss: seq<Section>, h: Handler)
    requires forall i :: 0 <= i < |ss| ==> SectionOk(ss[i])
    ensures Parse(START, Print(ss), 0, h).events == Events(ss)
    ensures AcceptsAll(h) ==> Parse(START, Print(ss), 0, h).error == 0
  {
    LinesReadBack(h);
    SectionsRoundTrip(LineTurn(h), START, ss, 0, h);
    assert START.events + Events(ss) == Events(ss);
  }
}
