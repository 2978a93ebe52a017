/** The parser as it runs: one line buffer and two small ones, cut up in place by writing
    NULs into them.  Each method is proved against the meaning given in `Ini`; the texts
    that the buffers hold are passed along as ghost arguments. */
module IniBuffer {
  import opened Ini
  import opened Text

  /** The C string at offset `i` of the buffer is `t`. */
  ghost predicate Holds(a: array<char>, i: nat, t: string)
    reads a
  {
    && i + |t| < a.Length
    && a[i + |t|] == '\0'
    && forall k :: 0 <= k < |t| ==> t[k] == a[i + k] && t[k] != '\0'
  }

  /** A tail of a text is the text further on. */
  lemma {:induction false} TailHeld(a: array<char>, i: nat, t: string, j: nat)
    requires Holds(a, i, t) && i <= j <= i + |t|
    ensures Holds(a, j, t[j - i..])
    ensures j < i + |t| ==> a[j] == t[j - i] != '\0'
  {
    var rest := t[j - i..];
    forall k | 0 <= k < |rest|
      ensures rest[k] == a[j + k] && rest[k] != '\0'
    {
      assert rest[k] == t[j - i + k] == a[i + (j - i + k)];
    }
  }

  method StrLen(a: array<char>, i: nat, ghost t: string) returns (n: nat)
    requires Holds(a, i, t)
    ensures n == |t|
  {
    n := 0;
    while a[i + n] != '\0'
      invariant n <= |t|
      decreases |t| - n
    {
      n := n + 1;
    }
    TailHeld(a, i, t, i + n);
  }

  /** The text at `i`, as the handler sees it. */
  method Read(a: array<char>, i: nat, ghost t: string) returns (s: string)
    requires Holds(a, i, t)
    ensures s == t
  {
    s := "";
    while a[i + |s|] != '\0'
      invariant |s| <= |t| && s == t[..|s|]
      decreases |t| - |s|
    {
      assert t[|s|] == a[i + |s|];
      s := s + [a[i + |s|]];
    }
    TailHeld(a, i, t, i + |s|);
  }

  /** Strip whitespace off the end of the text at `i`, in place. */
  method RStrip(a: array<char>, i: nat, ghost t: string)
    requires Holds(a, i, t)
    modifies a
    ensures Holds(a, i, TrimRight(t))
    ensures forall k :: 0 <= k < a.Length && !(i <= k < i + |t|) ==> a[k] == old(a[k])
  {
    var n := StrLen(a, i, t);
    assert t[..n] == t;
    while n > 0 && IsSpace(a[i + n - 1])
      invariant 0 <= n <= |t| && Holds(a, i, t[..n])
      invariant TrimRight(t[..n]) == TrimRight(t)
      invariant forall k :: 0 <= k < a.Length && !(i <= k < i + |t|) ==> a[k] == old(a[k])
    {
      assert t[..n][n - 1] == a[i + (n - 1)];
      assert t[..n][..n - 1] == t[..n - 1];
      n := n - 1;
      a[i + n] := '\0';
    }
    assert n > 0 ==> t[..n][n - 1] == a[i + (n - 1)];
  }

  /** Offset of the first character of the text at `i` that is not whitespace. */
  method LSkip(a: array<char>, i: nat, ghost t: string) returns (j: nat)
    requires Holds(a, i, t)
    ensures j == i + |t| - |TrimLeft(t)| && Holds(a, j, TrimLeft(t))
  {
    j := i;
    assert t[0..] == t;
    while a[j] != '\0' && IsSpace(a[j])
      invariant i <= j <= i + |t|
      invariant TrimLeft(t[j - i..]) == TrimLeft(t)
      decreases i + |t| - j
    {
      TailHeld(a, i, t, j);
      assert t[j - i..][1..] == t[j + 1 - i..];
      j := j + 1;
    }
    TailHeld(a, i, t, j);
    assert TrimLeft(t[j - i..]) == t[j - i..];
  }

  /** Offset, in the text at `i`, of one of `chars` or of an inline comment, or of its end. */
  method FindCharsOrComment(a: array<char>, i: nat, chars: string, ghost t: string) returns (j: nat)
    requires Holds(a, i, t)
    ensures j == i + Find(t, chars, false)
    ensures a[j] == if j < i + |t| then t[j - i] else '\0'
    ensures j < i + |t| ==> a[j] != '\0'
  {
    var wasSpace := false;
    j := i;
    assert t[0..] == t;
    while a[j] != '\0' && a[j] !in chars && !(wasSpace && a[j] == ';')
      invariant i <= j <= i + |t|
      invariant Find(t, chars, false) == (j - i) + Find(t[j - i..], chars, wasSpace)
      decreases i + |t| - j
    {
      TailHeld(a, i, t, j);
      assert t[j - i..][1..] == t[j + 1 - i..];
      wasSpace := IsSpace(a[j]);
      j := j + 1;
    }
    TailHeld(a, i, t, j);
  }

  /** Copy the text at `i` into `dest`, which takes `size` characters and stays terminated. */
  method StrNCpy0(dest: array<char>, a: array<char>, i: nat, size: nat, ghost t: string)
    requires Holds(a, i, t) && dest != a && 0 < size <= dest.Length
    modifies dest
    ensures Holds(dest, 0, Cut(t, size))
  {
    var k := 0;
    while k < size - 1 && a[i + k] != '\0'
      invariant k <= size - 1 && k <= |t|
      invariant forall m :: 0 <= m < k ==> dest[m] == t[m]
    {
      dest[k] := a[i + k];
      k := k + 1;
    }
    assert k < |t| ==> t[k] == a[i + k] != '\0';
    dest[k] := '\0';
    assert Cut(t, size) == t[..k];
  }

  /** End the text at `i` at offset `end`. */
  method CutAt(a: array<char>, i: nat, end: nat, ghost t: string)
    requires Holds(a, i, t) && i <= end <= i + |t|
    modifies a
    ensures Holds(a, i, t[..end - i])
    ensures forall k :: 0 <= k < a.Length && k != end ==> a[k] == old(a[k])
  {
    a[end] := '\0';
  }

  /** Cut the value at `i` before an inline comment, in place. */
  method CutComment(a: array<char>, i: nat, ghost t: string)
    requires Holds(a, i, t)
    modifies a
    ensures Holds(a, i, t[..Find(t, "", false)])
    ensures forall k :: 0 <= k < i ==> a[k] == old(a[k])
  {
    var end := FindCharsOrComment(a, i, "", t);
    if a[end] != '\0' {
      CutAt(a, i, end, t);
    } else {
      assert t[..end - i] == t;
    }
  }

  /** Cut the value at `i` before an inline comment and strip both ends, in place. */
  method TrimValue(a: array<char>, i: nat, ghost t: string) returns (value: nat)
    requires Holds(a, i, t)
    modifies a
    ensures Holds(a, value, Value(t))
    ensures forall k :: 0 <= k < i ==> a[k] == old(a[k])
  {
    CutComment(a, i, t);
    value := TrimBoth(a, i, t[..Find(t, "", false)]);
  }

  method TrimBoth(a: array<char>, i: nat, ghost s: string) returns (value: nat)
    requires Holds(a, i, s)
    modifies a
    ensures Holds(a, value, TrimRight(TrimLeft(s)))
    ensures forall k :: 0 <= k < i ==> a[k] == old(a[k])
  {
    value := LSkip(a, i, s);
    RStrip(a, value, TrimLeft(s));
  }

  /** Split a `name=value` text at its delimiter, in place. */
  method SplitPair(a: array<char>, start: nat, end: nat, ghost t: string) returns (value: nat)
    requires Holds(a, start, t) && start <= end < start + |t|
    modifies a
    ensures Holds(a, start, Name(t, end - start))
    ensures Holds(a, value, Value(t[end - start + 1..]))
  {
    TailHeld(a, start, t, end + 1);
    CutAt(a, start, end, t);
    RStrip(a, start, t[..end - start]);
    assert Holds(a, start, Name(t, end - start));
    assert Holds(a, end + 1, t[end + 1 - start..]);
    value := TrimValue(a, end + 1, t[end + 1 - start..]);
  }

  /** A piece of input and a NUL make the C string of the piece. */
  lemma {:induction false} PieceHeld(a: array<char>, piece: string)
    requires |piece| < a.Length && a[|piece|] == '\0'
    requires forall k :: 0 <= k < |piece| ==> a[k] == piece[k]
    ensures Holds(a, 0, CString(piece))
  {
    var t := CString(piece);
    assert forall k :: 0 <= k < |t| ==> t[k] in t && t[k] == piece[k];
  }

  /** Read the next piece of `input`, of which `rest` is left, into the buffer, as
      `ini_reader_string` does. */
  method ReadPiece(a: array<char>, num: nat, input: string, pos: nat, ghost rest: string) returns (more: bool, next: nat)
    requires pos <= |input| && rest == input[pos..] && 2 <= num <= a.Length
    modifies a
    ensures more <==> rest != ""
    ensures more ==> pos < next <= |input| && next - pos == PieceLength(rest, num) && rest[next - pos..] == input[next..]
    ensures more ==> Holds(a, 0, CString(rest[..next - pos]))
  {
    if pos == |input| {
      return false, pos;
    }
    more, next := true, pos;
    var left := num;
    while left > 1 && next < |input|
      invariant pos <= next <= |input| && next - pos == num - left && left >= 1
      invariant forall k :: 0 <= k < next - pos ==> a[k] == input[pos + k]
      invariant pos + PieceLength(rest, num) == next + PieceLength(input[next..], left)
    {
      var c := input[next];
      assert input[next..][1..] == input[next + 1..];
      a[next - pos] := c;
      next := next + 1;
      if c == '\n' {
        break;
      }
      left := left - 1;
    }
    a[next - pos] := '\0';
    assert rest[..next - pos] == input[pos..next];
    PieceHeld(a, input[pos..next]);
  }

  // ----- the loop ---------------------------------------------------------------------

  /** The buffers are apart, sized as declared, and hold the state `st`. */
  ghost predicate Buffers(line: array<char>, section: array<char>, prevName: array<char>, st: State)
    reads section, prevName
  {
    && line != section && line != prevName && section != prevName
    && line.Length == MAX_LINE && section.Length == MAX_SECTION && prevName.Length == MAX_NAME
    && Holds(section, 0, st.section) && Holds(prevName, 0, st.prevName)
  }

  /** A text that starts with `[`. */
  method ParseSection(line: array<char>, section: array<char>, prevName: array<char>, start: nat, lineno: nat,
                      error: nat, ghost st: State, ghost t: string)
    returns (error': nat)
    requires Buffers(line, section, prevName, st) && Holds(line, start, t) && t != "" && error == st.error
    modifies line, section, prevName
    ensures var st' := SectionStep(st, t, lineno);
            Buffers(line, section, prevName, st') && error' == st'.error && st'.events == st.events
  {
    error' := error;
    TailHeld(line, start, t, start + 1);
    var end := FindCharsOrComment(line, start + 1, "]", t[1..]);
    if line[end] == ']' {
      CutAt(line, start + 1, end, t[1..]);
      assert t[1..][..end - start - 1] == t[1..end - start];
      StrNCpy0(section, line, start + 1, MAX_SECTION, t[1..end - start]);
      prevName[0] := '\0';
    } else if error == 0 {
      error' := lineno;
    }
  }

  /** The three texts that are handed to the handler. */
  method ReadEvent(section: array<char>, a: array<char>, i: nat, b: array<char>, j: nat, ghost held: Event) returns (e: Event)
    requires Holds(section, 0, held.section) && Holds(a, i, held.name) && Holds(b, j, held.value)
    ensures e == held
  {
    var s := Read(section, 0, held.section);
    var n := Read(a, i, held.name);
    var v := Read(b, j, held.value);
    e := Event(s, n, v);
  }

  /** Call the handler and note the line if it is the first to be refused. */
  method CallHandler(e: Event, lineno: nat, events: seq<Event>, error: nat, h: Handler, ghost st: State)
    returns (events': seq<Event>, error': nat)
    requires st.events == events && st.error == error
    ensures Call(st, e, h, lineno) == st.(events := events', error := error')
  {
    events' := events + [e];
    error' := if !h(events, e) && error == 0 then lineno else error;
  }

  /** A text that must be a name, a delimiter and a value. */
  method ParsePair(line: array<char>, section: array<char>, prevName: array<char>, start: nat, lineno: nat,
                   events: seq<Event>, error: nat, h: Handler, ghost st: State, ghost t: string)
    returns (events': seq<Event>, error': nat)
    requires Buffers(line, section, prevName, st) && Holds(line, start, t) && events == st.events && error == st.error
    modifies line, prevName
    ensures var st' := PairStep(st, t, lineno, h);
            Buffers(line, section, prevName, st') && events' == st'.events && error' == st'.error
  {
    events', error' := events, error;
    var end := FindCharsOrComment(line, start, "=:", t);
    if line[end] == '=' || line[end] == ':' {
      ghost var name, text := Name(t, end - start), Value(t[end - start + 1..]);
      var value := SplitPair(line, start, end, t);
      StrNCpy0(prevName, line, start, MAX_NAME, name);
      var e := ReadEvent(section, line, start, line, value, Event(st.section, name, text));
      events', error' := CallHandler(e, lineno, events, error, h, st.(prevName := Cut(name, MAX_NAME)));
    } else if error == 0 {
      error' := lineno;
    }
  }

  /** The branches on the stripped text of a line. */
  method ParseText(line: array<char>, section: array<char>, prevName: array<char>, start: nat, lineno: nat,
                   events: seq<Event>, error: nat, h: Handler, ghost st: State, ghost t: string)
    returns (events': seq<Event>, error': nat)
    requires Buffers(line, section, prevName, st) && Holds(line, start, t) && events == st.events && error == st.error
    modifies line, section, prevName
    ensures var st' := TextStep(st, t, start > 0, lineno, h);
            Buffers(line, section, prevName, st') && events' == st'.events && error' == st'.error
  {
    events', error' := events, error;
    TailHeld(line, start, t, start);
    TailHeld(prevName, 0, st.prevName, 0);
    if line[start] == '\0' || line[start] == ';' || line[start] == '#' {
      // blank, or a comment
    } else if prevName[0] != '\0' && start > 0 {
      // more of the previous name's value
      var e := ReadEvent(section, prevName, 0, line, start, Event(st.section, st.prevName, t));
      events', error' := CallHandler(e, lineno, events, error, h, st);
    } else if line[start] == '[' {
      error' := ParseSection(line, section, prevName, start, lineno, error, st, t);
    } else {
      events', error' := ParsePair(line, section, prevName, start, lineno, events, error, h, st, t);
    }
  }

  lemma {:induction false} BomHeld(a: array<char>, t: string, lineno: nat, start: nat)
    requires Holds(a, 0, t) && a.Length >= 3
    requires start == if lineno == 1 && a[0] == '\U{EF}' && a[1] == '\U{BB}' && a[2] == '\U{BF}' then 3 else 0
    ensures Holds(a, start, SkipBom(t, lineno)) && start == |t| - |SkipBom(t, lineno)|
  {
    assert |t| >= 1 ==> t[0] == a[0];
    assert |t| >= 2 ==> t[1] == a[1];
    if |t| >= 3 {
      assert t[2] == a[2];
      assert t[..3] == [a[0], a[1], a[2]];
      TailHeld(a, 0, t, 3);
    }
  }

  /** One turn of the loop of `ini_parse_stream`, on the line that is in the buffer. */
  method ParseLine(line: array<char>, section: array<char>, prevName: array<char>, lineno: nat,
                   events: seq<Event>, error: nat, h: Handler, ghost st: State, ghost t: string)
    returns (events': seq<Event>, error': nat)
    requires Buffers(line, section, prevName, st) && Holds(line, 0, t) && events == st.events && error == st.error
    modifies line, section, prevName
    ensures var st' := LineStep(st, t, lineno, h);
            Buffers(line, section, prevName, st') && events' == st'.events && error' == st'.error
  {
    var start := 0;
    if lineno == 1 && line[0] == '\U{EF}' && line[1] == '\U{BB}' && line[2] == '\U{BF}' {
      start := 3;
    }
    BomHeld(line, t, lineno, start);
    ghost var body := SkipBom(t, lineno);
    RStrip(line, start, body);
    start := LSkip(line, start, TrimRight(body));
    events', error' := ParseText(line, section, prevName, start, lineno, events, error, h, st, Stripped(t, lineno));
  }

  lemma {:induction false} ParseNext(st: State, input: string, n: nat, lineno: nat, h: Handler)
    requires input != "" && n == PieceLength(input, MAX_LINE) > 0
    ensures Parse(st, input, lineno, h) ==
            Parse(LineStep(st, CString(input[..n]), lineno + 1, h), input[n..], lineno + 1, h)
  {
    assert Pieces(input) == [input[..n]] + Pieces(input[n..]);
  }

  /** One turn, seen from the input that is left. */
  method ParseTurn(line: array<char>, section: array<char>, prevName: array<char>, lineno: nat,
                   events: seq<Event>, error: nat, h: Handler, ghost st: State, ghost rest: string, ghost n: nat)
    returns (events': seq<Event>, error': nat, ghost st': State)
    requires Buffers(line, section, prevName, st) && events == st.events && error == st.error && lineno > 0
    requires rest != "" && n == PieceLength(rest, MAX_LINE) > 0 && Holds(line, 0, CString(rest[..n]))
    modifies line, section, prevName
    ensures Buffers(line, section, prevName, st') && events' == st'.events && error' == st'.error
    ensures Parse(st, rest, lineno - 1, h) == Parse(st', rest[n..], lineno, h)
  {
    ghost var t := CString(rest[..n]);
    ParseNext(st, rest, n, lineno - 1, h);
    events', error' := ParseLine(line, section, prevName, lineno, events, error, h, st, t);
    st' := LineStep(st, t, lineno, h);
  }

  /** The line buffer holds the next piece of what is left, up to position `next`; `more` is
      false when nothing is left. */
  ghost predicate Ahead(line: array<char>, input: string, rest: string, pos: nat, next: nat, more: bool)
    reads line
  {
    && pos <= |input| && (more <==> rest != "")
    && (more ==> pos < next <= |input| && next - pos == PieceLength(rest, MAX_LINE) && rest[next - pos..] == input[next..])
    && (more ==> Holds(line, 0, CString(rest[..next - pos])))
  }

  /** One turn, and the read that follows it. */
  method ParseAndRead(line: array<char>, section: array<char>, prevName: array<char>, lineno: nat,
                      events: seq<Event>, error: nat, h: Handler, input: string, pos: nat, next: nat,
                      ghost st: State, ghost rest: string)
    returns (events': seq<Event>, error': nat, more: bool, next': nat, ghost st': State, ghost rest': string)
    requires Buffers(line, section, prevName, st) && events == st.events && error == st.error && lineno > 0
    requires Ahead(line, input, rest, pos, next, true)
    modifies line, section, prevName
    ensures Buffers(line, section, prevName, st') && events' == st'.events && error' == st'.error
    ensures Ahead(line, input, rest', next, next', more)
    ensures Parse(st, rest, lineno - 1, h) == Parse(st', rest', lineno, h)
  {
    events', error', st' := ParseTurn(line, section, prevName, lineno, events, error, h, st, rest, next - pos);
    rest' := rest[next - pos..];
    more, next' := ReadPiece(line, MAX_LINE, input, next, rest');
  }

  lemma {:induction false} ParseNothing(st: State, lineno: nat, h: Handler)
    ensures Parse(st, "", lineno, h) == st
  {
    assert Pieces("") == [];
  }

  /** The loop, from buffers that hold the state `st`; `meaning` is what the input means. */
  method ParseLoop(line: array<char>, section: array<char>, prevName: array<char>, input: string, h: Handler,
                   ghost meaning: State)
    returns (events: seq<Event>, error: nat)
    requires Buffers(line, section, prevName, START) && meaning == Parse(START, input, 0, h)
    modifies line, section, prevName
    ensures events == meaning.events && error == meaning.error
  {
    var lineno, pos := 0, 0;
    events, error := [], 0;
    ghost var st, rest := START, input;
    var more, next := ReadPiece(line, MAX_LINE, input, pos, rest);
    while more
      invariant Buffers(line, section, prevName, st) && events == st.events && error == st.error
      invariant Ahead(line, input, rest, pos, next, more)
      invariant meaning == Parse(st, rest, lineno, h)
      decreases |input| - pos
    {
      lineno := lineno + 1;
      var from := pos;
      pos := next;
      events, error, more, next, st, rest :=
        ParseAndRead(line, section, prevName, lineno, events, error, h, input, from, next, st, rest);
    }
    ParseNothing(st, lineno, h);
  }

  /** `ini_parse_string`: the buffers live only here, and the result is the fold over the
      lines of the input. */
  method ParseString(input: string, h: Handler) returns (events: seq<Event>, error: nat)
    ensures events == Parse(START, input, 0, h).events && error == Parse(START, input, 0, h).error
  {
    var line, section, prevName := new char[MAX_LINE], new char[MAX_SECTION], new char[MAX_NAME];
    section[0], prevName[0] := '\0', '\0';
    events, error := ParseLoop(line, section, prevName, input, h, Parse(START, input, 0, h));
  }
}
