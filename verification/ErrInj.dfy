/** The queue of error injections: how the events of the configuration file build it, and
    what it makes an operation return. */
module ErrInj {
  import opened Ini
  import opened Options
  import opened Text
  import IniBuffer
  import IniTheorems

  datatype Kind = Errno | KillCaller | Noop | Slowdown

  /** One node of the queue; a missing regular expression matches everything. */
  datatype Node = Node(kind: Kind, pathRegexp: Option<string>, opRegexp: Option<string>, probability: nat, duration: nat)

  const KINDS: seq<string> := ["errinj_errno", "errinj_kill_caller", "errinj_noop", "errinj_slowdown"]

  function KindOf(name: string): Option<Kind> {
    if name == "errinj_errno" then Some(Errno)
    else if name == "errinj_kill_caller" then Some(KillCaller)
    else if name == "errinj_noop" then Some(Noop)
    else if name == "errinj_slowdown" then Some(Slowdown)
    else None
  }

  function KindAt(i: nat): Kind
    requires i < 4
  {
    if i == 0 then Errno else if i == 1 then KillCaller else if i == 2 then Noop else Slowdown
  }

  /** An `int` stored into an `unsigned int`. */
  function Unsigned(n: int): nat {
    n % 0x1_0000_0000
  }

  // ----- the configuration as a queue ---------------------------------------------------

  function Set(n: Node, key: string, value: string): Node {
    if key == "path_regexp" then n.(pathRegexp := Some(value))
    else if key == "op_regexp" then n.(opRegexp := Some(value))
    else if key == "probability" then n.(probability := Unsigned(Atoi(value)))
    else if key == "duration" then n.(duration := Unsigned(Atoi(value)))
    else n
  }

  predicate KnownKey(key: string) {
    key == "path_regexp" || key == "op_regexp" || key == "probability" || key == "duration"
  }

  function Position(nodes: seq<Node>, kind: Kind): (i: nat)
    ensures i <= |nodes|
    ensures i < |nodes| ==> nodes[i].kind == kind
    ensures forall j :: 0 <= j < i ==> nodes[j].kind != kind
  {
    if nodes == [] || nodes[0].kind == kind then 0 else 1 + Position(nodes[1..], kind)
  }

  function Blank(kind: Kind): Node {
    Node(kind, None, None, 0, 0)
  }

  /** What one event does to the queue. */
  function Apply(nodes: seq<Node>, e: Event): seq<Node> {
    match KindOf(e.section)
    case None => nodes
    case Some(kind) =>
      var i := Position(nodes, kind);
      var queue := if i < |nodes| then nodes else nodes + [Blank(kind)];
      queue[i := Set(queue[i], e.name, e.value)]
  }

  function Build(es: seq<Event>): seq<Node> {
    if es == [] then [] else Apply(Build(es[..|es| - 1]), es[|es| - 1])
  }

  /** The value that the handler returns: -1 and 1 both count as success for the parser. */
  function ReturnCode(e: Event): int {
    if KindOf(e.section).None? then -1 else if KnownKey(e.name) then 1 else 0
  }

  function Accepts(): Handler {
    (es: seq<Event>, e: Event) => ReturnCode(e) != 0
  }

  // ----- the configuration as a map -------------------------------------------------------

  /** The kinds in the order in which the events first mention them. */
  function FirstMentions(es: seq<Event>): seq<Kind> {
    if es == [] then []
    else
      var before := FirstMentions(es[..|es| - 1]);
      var kind := KindOf(es[|es| - 1].section);
      if kind.None? || kind.value in before then before else before + [kind.value]
  }

  /** The last value that the events give to an option of a kind. */
  function LastValue(es: seq<Event>, kind: Kind, key: string): Option<string> {
    if es == [] then None
    else
      var e := es[|es| - 1];
      if KindOf(e.section) == Some(kind) && e.name == key then Some(e.value)
      else LastValue(es[..|es| - 1], kind, key)
  }

  function NumberOf(v: Option<string>): nat {
    if v.Some? then Unsigned(Atoi(v.value)) else 0
  }

  function NodeFor(es: seq<Event>, kind: Kind): Node {
    Node(kind, LastValue(es, kind, "path_regexp"), LastValue(es, kind, "op_regexp"),
         NumberOf(LastValue(es, kind, "probability")), NumberOf(LastValue(es, kind, "duration")))
  }

  predicate Distinct(kinds: seq<Kind>) {
    forall i, j :: 0 <= i < j < |kinds| ==> kinds[i] != kinds[j]
  }

  lemma {:induction false} Unmentioned(es: seq<Event>, kind: Kind)
    requires kind !in FirstMentions(es)
    ensures NodeFor(es, kind) == Blank(kind)
    decreases |es|
  {
    if es != [] {
      var before := FirstMentions(es[..|es| - 1]);
      assert KindOf(es[|es| - 1].section) != Some(kind) by {
        assert KindOf(es[|es| - 1].section) == Some(kind) ==> FirstMentions(es) == before + [kind] || kind in before;
      }
      Unmentioned(es[..|es| - 1], kind);
    }
  }

  lemma {:induction false} NodeForNext(es: seq<Event>, kind: Kind)
    requires es != []
    ensures var e, before := es[|es| - 1], NodeFor(es[..|es| - 1], kind);
            NodeFor(es, kind) == if KindOf(e.section) == Some(kind) then Set(before, e.name, e.value) else before
  {
  }

  /** The queue refines a map: one node per kind mentioned, in order of first mention, each
      option holding the value it was given last. */
  lemma {:induction false} QueueIsMap(es: seq<Event>)
    ensures Distinct(FirstMentions(es))
    ensures |Build(es)| == |FirstMentions(es)|
    ensures forall i :: 0 <= i < |Build(es)| ==> Build(es)[i] == NodeFor(es, FirstMentions(es)[i])
    decreases |es|
  {
    if es != [] {
      var pre, e := es[..|es| - 1], es[|es| - 1];
      QueueIsMap(pre);
      var nodes, kinds := Build(pre), FirstMentions(pre);
      forall i | 0 <= i < |Build(es)|
        ensures i < |FirstMentions(es)| && Build(es)[i] == NodeFor(es, FirstMentions(es)[i])
      {
        var kind := FirstMentions(es)[i];
        NodeForNext(es, kind);
        if i == |nodes| {
          Unmentioned(pre, kind);
        } else {
          assert nodes[i] == NodeFor(pre, kinds[i]);
        }
      }
    }
  }

  // ----- the queue in memory ---------------------------------------------------------------

  /** Index of a section name in the table of names, or -1. */
  method TypeByName(name: string) returns (idx: int)
    ensures -1 <= idx < 4
    ensures KindOf(name) == if idx == -1 then None else Some(KindAt(idx))
  {
    idx := -1;
    for i := 0 to 4
      invariant -1 <= idx < i
      invariant idx >= 0 ==> KINDS[idx] == name
      invariant idx == -1 ==> forall j :: 0 <= j < i ==> KINDS[j] != name
    {
      if KINDS[i] == name {
        idx := i;
      }
    }
    if idx == -1 {
      assert KINDS[0] != name && KINDS[1] != name && KINDS[2] != name && KINDS[3] != name;
    }
  }

  class Queue {
    var nodes: seq<Node>

    constructor ()
      ensures nodes == []
    {
      nodes := [];
    }

    /** `conf_option_handler`: find the node of the section, or append one, and set the
        option.  An unknown key still appends the node. */
    method OptionHandler(e: Event) returns (rc: int)
      modifies this
      ensures nodes == Apply(old(nodes), e) && rc == ReturnCode(e)
    {
      var curType := TypeByName(e.section);
      if curType == -1 {
        return -1;
      }
      var kind := KindAt(curType);
      var at := 0;
      while at < |nodes| && nodes[at].kind != kind
        invariant 0 <= at <= |nodes| && nodes == old(nodes)
        invariant Position(nodes, kind) == at + Position(nodes[at..], kind)
      {
        assert nodes[at..][1..] == nodes[at + 1..];
        at := at + 1;
      }
      if at == |nodes| {
        nodes := nodes + [Blank(kind)];
      }
      var err := nodes[at];
      if e.name == "path_regexp" {
        nodes := nodes[at := err.(pathRegexp := Some(e.value))];
      } else if e.name == "op_regexp" {
        nodes := nodes[at := err.(opRegexp := Some(e.value))];
      } else if e.name == "probability" {
        nodes := nodes[at := err.(probability := Unsigned(Atoi(e.value)))];
      } else if e.name == "duration" {
        nodes := nodes[at := err.(duration := Unsigned(Atoi(e.value)))];
      } else {
        return 0;
      }
      rc := 1;
    }
  }

  /** What the configuration path names: nothing, a file that cannot be opened, a text. */
  datatype ConfigFile = Missing | Unreadable | Readable(text: string)

  /** `config_init`: an empty queue, filled from the file if there is one. */
  method ConfigInit(file: ConfigFile) returns (q: Queue?)
    ensures q == null <==> file.Unreadable?
    ensures q != null ==> fresh(q)
    ensures q != null ==> q.nodes == (if file.Missing? then [] else Build(Parse(START, file.text, 0, Accepts()).events))
  {
    q := new Queue();
    if file.Unreadable? {
      return null;
    }
    if file.Readable? {
      var events, _ := IniBuffer.ParseString(file.text, Accepts());
      Feed(q, events);
    }
  }

  /** The handler's calls, one after the other. */
  method Feed(q: Queue, events: seq<Event>)
    requires q.nodes == []
    modifies q
    ensures q.nodes == Build(events)
  {
    var i := 0;
    while i < |events|
      invariant 0 <= i <= |events| && q.nodes == Build(events[..i])
    {
      var rc := q.OptionHandler(events[i]);
      BuildNext(events, i);
      i := i + 1;
    }
    assert events[..i] == events;
  }

  lemma {:induction false} BuildNext(es: seq<Event>, i: nat)
    requires i < |es|
    ensures Build(es[..i + 1]) == Apply(Build(es[..i]), es[i])
  {
    assert es[..i + 1][..i] == es[..i];
  }

  /** A printed configuration comes back as the map that it describes. */
  lemma {:induction false} ConfigRoundTrip(ss: seq<IniTheorems.Section>)
    requires forall i :: 0 <= i < |ss| ==> IniTheorems.SectionOk(ss[i])
    ensures var es := IniTheorems.Events(ss);
            var nodes := Build(Parse(START, IniTheorems.Print(ss), 0, Accepts()).events);
            && |nodes| == |FirstMentions(es)|
            && forall i :: 0 <= i < |nodes| ==> nodes[i] == NodeFor(es, FirstMentions(es)[i])
  {
    IniTheorems.PrintParse(ss, Accepts());
    QueueIsMap(IniTheorems.Events(ss));
  }

  // ----- injection -----------------------------------------------------------------------

  const ERRNO_NOOP: int := -999

  /** What one call of `error_inject` depends on: whether an expression matches a text, and
      the random draws, one probability and one error number for each node. */
  datatype World = World(matches: (string, string) -> bool, draw: nat -> nat, errno: nat -> int)

  predicate Matched(w: World, regexp: Option<string>, text: string) {
    regexp.None? || w.matches(regexp.value, text)
  }

  /** What the first `n` nodes make of an operation. */
  function Injected(w: World, nodes: seq<Node>, path: string, op: string, n: nat): int
    requires n <= |nodes|
  {
    if n == 0 then 0
    else
      var err := nodes[n - 1];
      if w.draw(n - 1) % 101 <= err.probability && Matched(w, err.pathRegexp, path) && Matched(w, err.opRegexp, op) then
        match err.kind
        case Noop => -ERRNO_NOOP
        case Errno => -w.errno(n - 1)
        case _ => Injected(w, nodes, path, op, n - 1)
      else Injected(w, nodes, path, op, n - 1)
  }

  /** Node `i` lets the operation through to the injection. */
  predicate Fires(w: World, nodes: seq<Node>, path: string, op: string, i: nat)
    requires i < |nodes|
  {
    && w.draw(i) % 101 <= nodes[i].probability
    && (nodes[i].pathRegexp.Some? ==> w.matches(nodes[i].pathRegexp.value, path))
    && (nodes[i].opRegexp.Some? ==> w.matches(nodes[i].opRegexp.value, op))
  }

  /** No node from `from` on decides: each is passed over, or of a kind that returns nothing. */
  predicate Undecided(w: World, nodes: seq<Node>, path: string, op: string, from: nat) {
    forall j :: from <= j < |nodes| && Fires(w, nodes, path, op, j) ==> nodes[j].kind.KillCaller? || nodes[j].kind.Slowdown?
  }

  lemma {:induction false} PassedOver(w: World, nodes: seq<Node>, path: string, op: string, from: nat, n: nat)
    requires from <= n <= |nodes| && Undecided(w, nodes, path, op, from)
    ensures Injected(w, nodes, path, op, n) == Injected(w, nodes, path, op, from)
  {
    if from < n {
      PassedOver(w, nodes, path, op, from, n - 1);
      assert Fires(w, nodes, path, op, n - 1) ==> nodes[n - 1].kind.KillCaller? || nodes[n - 1].kind.Slowdown?;
    }
  }

  /** The last node of kind errno or noop that fires decides: minus its error number, or 999. */
  lemma {:induction false} LastDecides(w: World, nodes: seq<Node>, path: string, op: string, i: nat)
    requires i < |nodes| && Fires(w, nodes, path, op, i) && Undecided(w, nodes, path, op, i + 1)
    ensures nodes[i].kind.Errno? ==> Injected(w, nodes, path, op, |nodes|) == -w.errno(i)
    ensures nodes[i].kind.Noop? ==> Injected(w, nodes, path, op, |nodes|) == 999
  {
    PassedOver(w, nodes, path, op, i + 1, |nodes|);
  }

  /** Without one, the operation goes on. */
  lemma {:induction false} NothingDecides(w: World, nodes: seq<Node>, path: string, op: string)
    requires Undecided(w, nodes, path, op, 0)
    ensures Injected(w, nodes, path, op, |nodes|) == 0
  {
    PassedOver(w, nodes, path, op, 0, |nodes|);
  }

  class Config {
    const configPath: string
    var errors: Queue?

    constructor (path: string, file: ConfigFile)
      ensures configPath == path
      ensures errors == null <==> file.Unreadable?
      ensures errors != null ==>
        errors.nodes == (if file.Missing? then [] else Build(Parse(START, file.text, 0, Accepts()).events))
    {
      configPath := path;
      new;
      errors := ConfigInit(file);
    }

    /** `error_inject`: on the configuration file itself, read it again; elsewhere, the code
        of the last node that is triggered and decides, or 0. */
    method ErrorInject(path: string, op: string, w: World, file: ConfigFile) returns (rc: int)
      modifies this
      ensures path == configPath ==>
        rc == 0 && (errors == null <==> file.Unreadable?) &&
        (errors != null ==>
           errors.nodes == (if file.Missing? then [] else Build(Parse(START, file.text, 0, Accepts()).events)))
      ensures path != configPath ==> errors == old(errors)
      ensures path != configPath && errors == null ==> rc == 0
      ensures path != configPath && errors != null ==> rc == Injected(w, errors.nodes, path, op, |errors.nodes|)
    {
      rc := 0;
      if path == configPath {
        errors := ConfigInit(file);
        return;
      }
      if errors == null {
        return;
      }
      var nodes := errors.nodes;
      for i := 0 to |nodes|
        invariant errors == old(errors) && nodes == errors.nodes
        invariant rc == Injected(w, nodes, path, op, i)
      {
        var err := nodes[i];
        var p := w.draw(i) % 101;
        if !(p <= err.probability) {
          continue;
        }
        if !Matched(w, err.pathRegexp, path) {
          continue;
        }
        if !Matched(w, err.opRegexp, op) {
          continue;
        }
        match err.kind
        case Noop =>
          rc := -ERRNO_NOOP;
        case Errno =>
          rc := w.errno(i);
          rc := -rc;
        case KillCaller =>
        case Slowdown =>
      }
    }
  }
}
