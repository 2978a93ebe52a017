/** From the text of a configuration file to what an operation gets back. */
module ErrInjLaws {
  import opened ErrInj
  import opened Ini
  import opened IniLaws
  import opened Options
  import opened Text
  import opened TextLaws

  predicate KindName(s: string) {
    s == "errinj_errno" || s == "errinj_kill_caller" || s == "errinj_noop" || s == "errinj_slowdown"
  }

  /** What the handler returns: an unknown section counts as a success, an unknown option does
      not. */
  lemma {:induction false} HandlerReturns(e: Event)
    ensures ReturnCode(e) ==
            if !KindName(e.section) then -1
            else if e.name == "path_regexp" || e.name == "op_regexp" || e.name == "probability" || e.name == "duration" then 1
            else 0
  {
  }

  /** A negative number in the file becomes a large one. */
  lemma {:induction false} UnsignedLaw(n: int)
    requires -0x8000_0000 <= n < 0x8000_0000
    ensures Unsigned(n) == if n >= 0 then n else n + 0x1_0000_0000
  {
  }

  /** A section with a probability. */
  function Header(section: string, p: nat): string {
    ("[" + section + "]\n") + ("probability = " + Dec(p) + "\n")
  }

  lemma {:induction false} DecShort(n: nat)
    requires n <= 100
    ensures |Dec(n)| <= 3
  {
    DecLaw(n);
    DecLaw(n / 10);
    DecLaw(n / 100);
  }

  lemma {:induction false} DecGood(n: nat)
    ensures Tight(Dec(n)) && Inside(Dec(n)) && NoComment(Dec(n)) && Dec(n) != "" && Dec(n)[0] != ';'
  {
    forall i | 0 <= i < |Dec(n)|
      ensures Dec(n)[i] !in BLANKS && Dec(n)[i] != '\n' && Dec(n)[i] != '\0' && Dec(n)[i] != ';'
    {
      assert IsDigit(Dec(n)[i]);
    }
  }

  lemma {:induction false} KindClean(section: string)
    requires KindName(section)
    ensures |section| < 50 && Inside(section) && NoComment(section) && forall i :: 0 <= i < |section| ==> section[i] != ']'
  {
    forall i | 0 <= i < |section|
      ensures section[i] != '\n' && section[i] != '\0' && section[i] != ']' && section[i] != ';'
    {
      assert section[i] in "errinj_killcallnoopslowdown";
    }
  }

  lemma {:induction false} SectionParsed(section: string, rest: string, h: Handler)
    requires KindName(section)
    ensures Parse(START, ("[" + section + "]\n") + rest, 0, h) == Parse(State(section, "", [], 0), rest, 1, h)
  {
    hide Parse, KindName;
    KindClean(section);
    var line := "" + ("[" + section + "]" + "") + "" + "\n";
    assert line == "[" + section + "]\n";
    assert WholeLineAt(line, 0) by {
      assert line[..|line| - 1] == "[" + section + "]";
    }
    SectionNamed(START, "", section, "", "", rest, 0, h);
  }

  /** An option line of the form that the documentation shows. */
  lemma {:induction false} OptionParsed(st: State, name: string, value: string, rest: string, lineno: nat, h: Handler)
    requires GoodName(name) && |name| < 50 && GoodValue(value, " ") && |name| + |value| <= 190
    requires 0 < lineno
    ensures Parse(st, (name + " = " + value + "\n") + rest, lineno, h) ==
            Parse(Told(st, name, name, value, lineno + 1, h), rest, lineno + 1, h)
  {
    hide Parse, Told;
    var line := name + " " + ['='] + " " + value + "" + "\n";
    assert line == name + " = " + value + "\n";
    assert WholeLineAt(line, lineno) by {
      assert line[..|line| - 1] == name + " = " + value;
    }
    PaddedPair(st, name, " ", '=', " ", value, "", rest, lineno, h);
  }

  lemma {:induction false} NothingLeft(st: State, lineno: nat, h: Handler)
    ensures Parse(st, "", lineno, h) == st
  {
    assert Pieces("") == [];
  }

  lemma {:induction false} TextOfHeader(section: string, p: nat, rest: string, h: Handler)
    requires KindName(section) && p <= 100
    ensures var e := Event(section, "probability", Dec(p));
            Parse(START, Header(section, p) + rest, 0, h) ==
            Parse(State(section, "probability", [e], if h([], e) then 0 else 2), rest, 2, h)
  {
    hide Parse;
    var st := State(section, "", [], 0);
    var line := "probability" + " = " + Dec(p) + "\n";
    assert Header(section, p) + rest == ("[" + section + "]\n") + (line + rest);
    SectionParsed(section, line + rest, h);
    DecShort(p);
    DecGood(p);
    OptionParsed(st, "probability", Dec(p), rest, 1, h);
    assert [] + [Event(section, "probability", Dec(p))] == [Event(section, "probability", Dec(p))];
  }

  function KindNamed(section: string): Kind
    requires KindName(section)
  {
    if section == "errinj_errno" then Errno
    else if section == "errinj_kill_caller" then KillCaller
    else if section == "errinj_noop" then Noop
    else Slowdown
  }

  lemma {:induction false} BuildOne(section: string, p: nat)
    requires KindName(section) && p <= 100
    ensures Build([Event(section, "probability", Dec(p))]) == [Node(KindNamed(section), None, None, p, 0)]
  {
    hide Dec, Set, Position;
    var e := Event(section, "probability", Dec(p));
    assert [e][..0] == [] && [e][0] == e;
    assert Build([e]) == Apply([], e);
    SetOnly(KindNamed(section), p);
    NoPosition(KindNamed(section));
    var queue := [] + [ErrInj.Blank(KindNamed(section))];
    assert queue[0 := Set(queue[0], "probability", Dec(p))] == [Node(KindNamed(section), None, None, p, 0)];
  }

  lemma {:induction false} SetOnly(kind: Kind, p: nat)
    requires p <= 100
    ensures Set(ErrInj.Blank(kind), "probability", Dec(p)) == Node(kind, None, None, p, 0)
  {
    hide Dec, Atoi;
    DecParse(p);
  }

  lemma {:induction false} NoPosition(kind: Kind)
    ensures Position([], kind) == 0
  {
  }

  /** A section with nothing but a probability: for every draw that does not exceed it, and for
      every path and operation, the errno section gives minus the error number drawn, the noop
      section 999, and the other two nothing. */
  lemma {:induction false} PlainSection(section: string, p: nat, w: World, path: string, op: string)
    requires KindName(section) && p <= 100
    ensures var nodes := Build(Parse(START, Header(section, p), 0, Accepts()).events);
            && |nodes| == 1
            && Injected(w, nodes, path, op, 1) ==
               if w.draw(0) % 101 <= p && section == "errinj_errno" then -w.errno(0)
               else if w.draw(0) % 101 <= p && section == "errinj_noop" then 999
               else 0
  {
    hide Parse;
    assert Header(section, p) + "" == Header(section, p);
    TextOfHeader(section, p, "", Accepts());
    var e := Event(section, "probability", Dec(p));
    NothingLeft(State(section, "probability", [e], if Accepts()([], e) then 0 else 2), 2, Accepts());
    BuildOne(section, p);
    var nodes := [Node(KindNamed(section), None, None, p, 0)];
    assert Injected(w, nodes, path, op, 0) == 0;
  }

  lemma {:induction false} Hundred()
    ensures Dec(100) == "100"
  {
    hide Dec;
    DecLaw(100);
    DecLaw(10);
    DecLaw(1);
    DecLaw(0);
  }

  /** So a noop section of probability 100 stops every operation. */
  lemma {:induction false} NoopAlways(w: World, path: string, op: string)
    ensures var nodes := Build(Parse(START, "[errinj_noop]\nprobability = 100\n", 0, Accepts()).events);
            |nodes| == 1 && Injected(w, nodes, path, op, 1) == 999
  {
    hide Parse, Dec, Build, Injected;
    Hundred();
    assert Header("errinj_noop", 100) == "[errinj_noop]\nprobability = 100\n";
    PlainSection("errinj_noop", 100, w, path, op);
  }

  /** With both expressions. */
  function Full(section: string, p: nat, pathRegexp: string, opRegexp: string): string {
    Header(section, p) + (("path_regexp = " + pathRegexp + "\n") + ("op_regexp = " + opRegexp + "\n"))
  }

  lemma {:induction false} TextOfFull(section: string, p: nat, x: string, y: string, h: Handler)
    requires KindName(section) && p <= 100 && GoodValue(x, " ") && GoodValue(y, " ") && |x| <= 100 && |y| <= 100
    ensures Parse(START, Full(section, p, x, y), 0, h).events ==
            [Event(section, "probability", Dec(p)), Event(section, "path_regexp", x), Event(section, "op_regexp", y)]
  {
    hide Parse, Dec, Told;
    var e1 := Event(section, "probability", Dec(p));
    var lines := ("path_regexp = " + x + "\n") + ("op_regexp = " + y + "\n");
    TextOfHeader(section, p, lines, h);
    var st := State(section, "probability", [e1], if h([], e1) then 0 else 2);
    TwoExpressions(st, x, y, h);
    assert [e1] + [Event(section, "path_regexp", x)] + [Event(section, "op_regexp", y)] ==
           [e1, Event(section, "path_regexp", x), Event(section, "op_regexp", y)];
  }

  lemma {:induction false} TwoExpressions(st: State, x: string, y: string, h: Handler)
    requires GoodValue(x, " ") && GoodValue(y, " ") && |x| <= 100 && |y| <= 100
    ensures Parse(st, ("path_regexp = " + x + "\n") + ("op_regexp = " + y + "\n"), 2, h).events ==
            st.events + [Event(st.section, "path_regexp", x)] + [Event(st.section, "op_regexp", y)]
  {
    hide Parse, GoodValue;
    var last := "op_regexp" + " = " + y + "\n";
    assert "path_regexp" + " = " == "path_regexp = " && "op_regexp" + " = " == "op_regexp = ";
    OptionParsed(st, "path_regexp", x, last, 2, h);
    var su := Told(st, "path_regexp", "path_regexp", x, 3, h);
    OptionParsed(su, "op_regexp", y, "", 3, h);
    assert last + "" == last;
    NothingLeft(Told(su, "op_regexp", "op_regexp", y, 4, h), 4, h);
  }

  lemma {:induction false} BuildThree(section: string, p: nat, x: string, y: string)
    requires KindName(section) && p <= 100
    ensures Build([Event(section, "probability", Dec(p)), Event(section, "path_regexp", x), Event(section, "op_regexp", y)]) ==
            [Node(KindNamed(section), Some(x), Some(y), p, 0)]
  {
    var e1, e2, e3 := Event(section, "probability", Dec(p)), Event(section, "path_regexp", x), Event(section, "op_regexp", y);
    BuildOne(section, p);
    BuildNext([e1, e2, e3], 2);
    BuildNext([e1, e2, e3], 1);
    assert [e1, e2, e3][..3] == [e1, e2, e3] && [e1, e2, e3][..2] == [e1, e2] && [e1, e2, e3][..1] == [e1];
    assert Build([e1, e2]) == [Node(KindNamed(section), Some(x), None, p, 0)];
  }

  /** A section with both expressions acts on exactly the paths and operations that match. */
  lemma {:induction false} FullSection(section: string, p: nat, x: string, y: string, w: World, path: string, op: string)
    requires KindName(section) && p <= 100 && GoodValue(x, " ") && GoodValue(y, " ") && |x| <= 100 && |y| <= 100
    ensures var nodes := Build(Parse(START, Full(section, p, x, y), 0, Accepts()).events);
            && |nodes| == 1
            && Injected(w, nodes, path, op, 1) ==
               if w.draw(0) % 101 <= p && w.matches(x, path) && w.matches(y, op) then
                 (if section == "errinj_errno" then -w.errno(0) else if section == "errinj_noop" then 999 else 0)
               else 0
  {
    hide Parse;
    TextOfFull(section, p, x, y, Accepts());
    BuildThree(section, p, x, y);
    var nodes := [Node(KindNamed(section), Some(x), Some(y), p, 0)];
    assert Injected(w, nodes, path, op, 0) == 0;
  }

  /** The whole way: from the file to the operation. */
  method Configured(configPath: string, section: string, p: nat, path: string, op: string, w: World) returns (rc: int)
    requires KindName(section) && p <= 100 && path != configPath
    ensures rc == if w.draw(0) % 101 <= p && section == "errinj_errno" then -w.errno(0)
                  else if w.draw(0) % 101 <= p && section == "errinj_noop" then 999
                  else 0
  {
    var config := new Config(configPath, Readable(Header(section, p)));
    PlainSection(section, p, w, path, op);
    rc := config.ErrorInject(path, op, w, Missing);
  }
}
