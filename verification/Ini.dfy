/** What the INI parser means: a fold over the lines of the input, with the current
    section, the previous name and the first bad line as its state. */
module Ini {
  import opened Text

  const MAX_LINE: nat := 200
  const MAX_SECTION: nat := 50
  const MAX_NAME: nat := 50

  /** One call of the handler. */
  datatype Event = Event(section: string, name: string, value: string)

  /** The handler's answer to an event, given the events before it; false is an error. */
  type Handler = (seq<Event>, Event) -> bool

  datatype State = State(section: string, prevName: string, events: seq<Event>, error: nat)

  const START: State := State("", "", [], 0)

  // ----- characters and strings ------------------------------------------------

  /** The C string that starts a buffer: everything before the first NUL. */
  function CString(s: string): (r: string)
    ensures |r| <= |s| && r == s[..|r|] && '\0' !in r
    ensures |r| < |s| ==> s[|r|] == '\0'
  {
    if s == "" || s[0] == '\0' then "" else [s[0]] + CString(s[1..])
  }

  /** Index of the first of the characters `chars`, or of a `;` that follows a space (or
      `spaced`), or the length of `s`. */
  function Find(s: string, chars: string, spaced: bool): (i: nat)
    ensures i <= |s|
  {
    if s == "" || s[0] in chars || (spaced && s[0] == ';') then 0
    else 1 + Find(s[1..], chars, IsSpace(s[0]))
  }

  /** `strncpy0`: at most `size - 1` characters. */
  function Cut(s: string, size: nat): (r: string)
    requires size > 0
    ensures |r| < size
  {
    if |s| < size then s else s[..size - 1]
  }

  // ----- one line -----------------------------------------------------------------

  function Fail(st: State, lineno: nat): State {
    if st.error == 0 then st.(error := lineno) else st
  }

  function Call(st: State, e: Event, h: Handler, lineno: nat): State {
    var called := st.(events := st.events + [e]);
    if h(st.events, e) then called else Fail(called, lineno)
  }

  /** A name: what stands before the delimiter at `end`, stripped on the right. */
  function Name(s: string, end: nat): (r: string)
    requires end <= |s|
    ensures |r| <= end
  {
    TrimRight(s[..end])
  }

  /** A value: what stands before an inline comment, stripped at both ends. */
  function Value(s: string): string {
    TrimRight(TrimLeft(s[..Find(s, "", false)]))
  }

  /** The byte-order mark, on the first line only. */
  function SkipBom(line: string, lineno: nat): string {
    if lineno == 1 && |line| >= 3 && line[..3] == ['\U{EF}', '\U{BB}', '\U{BF}'] then line[3..] else line
  }

  /** A text that starts with `[`. */
  function SectionStep(st: State, text: string, lineno: nat): State
    requires text != ""
  {
    var end := 1 + Find(text[1..], "]", false);
    if end < |text| && text[end] == ']'
    then st.(section := Cut(text[1..end], MAX_SECTION), prevName := "")
    else Fail(st, lineno)
  }

  /** A text that must be a name, a delimiter and a value. */
  function PairStep(st: State, text: string, lineno: nat, h: Handler): State {
    var end := Find(text, "=:", false);
    if end < |text| && (text[end] == '=' || text[end] == ':') then
      var name := Name(text, end);
      Call(st.(prevName := Cut(name, MAX_NAME)), Event(st.section, name, Value(text[end + 1..])), h, lineno)
    else Fail(st, lineno)
  }

  /** What the stripped text of a line does; an indented one continues the previous value. */
  function TextStep(st: State, text: string, indented: bool, lineno: nat, h: Handler): State {
    if text == "" || text[0] == ';' || text[0] == '#' then st
    else if st.prevName != "" && indented then Call(st, Event(st.section, st.prevName, text), h, lineno)
    else if text[0] == '[' then SectionStep(st, text, lineno)
    else PairStep(st, text, lineno, h)
  }

  /** The text of a line, and where it starts in the line. */
  function Stripped(line: string, lineno: nat): string {
    TrimLeft(TrimRight(SkipBom(line, lineno)))
  }

  function Indent(line: string, lineno: nat): int {
    |line| - |SkipBom(line, lineno)| + |TrimRight(SkipBom(line, lineno))| - |Stripped(line, lineno)|
  }

  /** What one line, without its NUL, does to the state. */
  function LineStep(st: State, line: string, lineno: nat, h: Handler): State {
    TextStep(st, Stripped(line, lineno), Indent(line, lineno) > 0, lineno, h)
  }

  // ----- the input in pieces ----------------------------------------------------------

  /** What `fgets` or `ini_reader_string` takes for a buffer of `num` characters: up to
      and including a newline, at most `num - 1` characters. */
  function PieceLength(s: string, num: nat): (n: nat)
    ensures n <= |s|
  {
    if num <= 1 || s == "" then 0
    else if s[0] == '\n' then 1
    else 1 + PieceLength(s[1..], num - 1)
  }

  function Pieces(s: string): (ps: seq<string>) {
    if s == "" then []
    else
      var n := PieceLength(s, MAX_LINE);
      if n == 0 then [] else [s[..n]] + Pieces(s[n..])
  }

  /** One turn of the parser's loop: a piece and its line number move the state on. */
  type Turn = (State, string, nat) -> State

  function LineTurn(h: Handler): Turn {
    (st: State, piece: string, lineno: nat) => LineStep(st, CString(piece), lineno, h)
  }

  function Fold(turn: Turn, st: State, ps: seq<string>, lineno: nat): State
    decreases |ps|
  {
    if ps == [] then st else Fold(turn, turn(st, ps[0], lineno + 1), ps[1..], lineno + 1)
  }

  function FoldLines(turn: Turn, st: State, input: string, lineno: nat): State {
    Fold(turn, st, Pieces(input), lineno)
  }

  /** The meaning of an input that starts after `lineno` lines. */
  function Parse(st: State, input: string, lineno: nat, h: Handler): State {
    FoldLines(LineTurn(h), st, input, lineno)
  }
}
