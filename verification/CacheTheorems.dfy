/** What a restart finds in the cache file. */
module CacheTheorems {
  import opened Options
  import opened CacheFile
  import opened Text
  import Session

  lemma {:induction false} LinesCons(line: string, rest: string)
    requires '\n' !in line
    ensures Lines(line + "\n" + rest) == [line] + Lines(rest)
  {
    var file := line + "\n" + rest;
    IndexOfAt(line, '\n', rest);
    assert file[..|line|] == line && file[|line| + 1..] == rest;
  }

  lemma {:induction false} EntryIsLine(key: string, v: Value)
    requires Plain(key)
    ensures '\n' !in PrintEntry(key, v)
  {
    SplitNumbers(Numbers(v));
  }

  /** Once sixteen fields have been read, the later lines change nothing. */
  lemma {:induction false} CarryKeeps(cache: Cache, fields: seq<string>, lines: seq<string>, l: Line)
    requires ParseFields(fields) == Some(l) && l.key in cache
    ensures LoadLines(cache, true, fields, lines) == Loaded(cache)
    decreases |lines|
  {
    if lines != [] {
      var more := fields + Split(lines[0]);
      assert more[1..16] == fields[1..16];
      CarryKeeps(cache, more, lines[1..], l);
    }
  }

  lemma {:induction false} SplitPlain(line: string)
    requires '\n' !in line
    ensures forall f :: f in Split(line) ==> Plain(f)
  {
    var i := IndexOf(line, ':');
    IndexOfFirst(line, ':');
    if i < |line| {
      SplitPlain(line[i + 1..]);
      assert Split(line) == [line[..i]] + Split(line[i + 1..]);
    }
  }

  lemma {:induction false} LinesPlain(file: string)
    ensures forall l :: l in Lines(file) ==> '\n' !in l
    decreases |file|
  {
    if file != "" {
      var i := IndexOf(file, '\n');
      IndexOfFirst(file, '\n');
      LinesPlain(if i < |file| then file[i + 1..] else "");
    }
  }

  /** Whatever the file, no key with a colon or a newline is ever loaded. */
  lemma {:induction false} LoadedPlain(cache: Cache, carry: bool, before: seq<string>, lines: seq<string>)
    requires forall k :: k in cache ==> Plain(k)
    requires forall f :: f in before ==> Plain(f)
    requires forall l :: l in lines ==> '\n' !in l
    requires LoadLines(cache, carry, before, lines).Loaded?
    ensures forall k :: k in LoadLines(cache, carry, before, lines).cache ==> Plain(k)
    decreases |lines|
  {
    if lines != [] {
      SplitPlain(lines[0]);
      var fields := (if carry then before else []) + Split(lines[0]);
      assert forall f :: f in fields ==> Plain(f);
      var l := ParseFields(fields).value;
      assert fields[0] in fields;
      LoadedPlain(Insert(cache, l.key, l.value), carry, fields, lines[1..]);
    }
  }

  /** And every loaded entry is clean. */
  lemma {:induction false} LoadedClean(cache: Cache, carry: bool, before: seq<string>, lines: seq<string>)
    requires forall k :: k in cache ==> !cache[k].dirty
    requires LoadLines(cache, carry, before, lines).Loaded?
    ensures var c := LoadLines(cache, carry, before, lines).cache;
            forall k :: k in c ==> !c[k].dirty
    decreases |lines|
  {
    if lines != [] {
      var fields := (if carry then before else []) + Split(lines[0]);
      var l := ParseFields(fields).value;
      LoadedClean(Insert(cache, l.key, l.value), carry, fields, lines[1..]);
    }
  }

  /** A restart from a printed cache: exactly the entry of the least key comes back, clean,
      if and only if its key has no colon or newline and `stoi` takes its numbers. */
  lemma {:induction false} RestartExact(m: Cache)
    requires m != map[]
    ensures var k := Min(m.Keys);
            Load(map[], Print(m)) == Loaded(map[k := Clean(m[k])]) <==> Plain(k) && Fits(m[k])
  {
    var k := Min(m.Keys);
    var rest := PrintKeys(m, m.Keys - {k});
    if Plain(k) {
      FirstLine(k, m[k], rest);
    } else if Load(map[], Print(m)).Loaded? {
      LinesPlain(Print(m));
      LoadedPlain(map[], true, [], Lines(Print(m)));
      assert k in map[k := Clean(m[k])];
    }
  }

  lemma {:induction false} FirstLine(k: string, v: Value, rest: string)
    requires Plain(k)
    ensures Load(map[], PrintEntry(k, v) + "\n" + rest) == if Fits(v) then Loaded(map[k := Clean(v)]) else Failed
  {
    EntryIsLine(k, v);
    LinesCons(PrintEntry(k, v), rest);
    var fields := Split(PrintEntry(k, v));
    ParseEntry(k, v, []);
    assert fields + [] == fields && [] + fields == fields;
    var lines := [PrintEntry(k, v)] + Lines(rest);
    assert lines[0] == PrintEntry(k, v) && lines[1..] == Lines(rest);
    if Fits(v) {
      var once: Cache := map[k := Clean(v)];
      assert Insert(map[], k, Clean(v)) == once;
      CarryKeeps(once, fields, Lines(rest), Line(k, Clean(v)));
    }
  }

  /** The entries of a cache as the session machine sees them. */
  ghost predicate Abstracts(cache: Cache, entries: map<string, Session.Entry>) {
    cache.Keys == entries.Keys &&
    forall k :: k in cache ==> entries[k] == Session.Entry(cache[k].info.ino, cache[k].dirty)
  }

  /** So a restart is one of those that the session machine allows for. */
  lemma {:induction false} RestartReloadable(m: Cache, c: Cache, before: map<string, Session.Entry>, after: map<string, Session.Entry>)
    requires m != map[] ==> Plain(Min(m.Keys))
    requires Load(map[], Print(m)) == Loaded(c)
    requires Abstracts(m, before) && Abstracts(c, after)
    ensures Session.Reloadable(before, after)
  {
    if m != map[] {
      var k := Min(m.Keys);
      FirstLine(k, m[k], PrintKeys(m, m.Keys - {k}));
    }
  }

  // ----- keys that the format does not survive ----------------------------------------------

  /** Whatever the file, the only key that is loaded from it is the first field of its first
      line. */
  lemma {:induction false} OnlyFirstKey(file: string)
    requires file != "" && Load(map[], file).Loaded?
    ensures Lines(file) != [] && Split(Lines(file)[0]) != []
    ensures Load(map[], file).cache.Keys == {Split(Lines(file)[0])[0]}
  {
    var lines := Lines(file);
    var fields := Split(lines[0]);
    assert [] + fields == fields;
    var l := ParseFields(fields).value;
    var once: Cache := map[l.key := l.value];
    assert Insert(map[], l.key, l.value) == once;
    CarryKeeps(once, fields, lines[1..], l);
  }

  /** That field of a printed entry is its key, or a proper beginning of it. */
  lemma {:induction false} FirstField(k: string, rest: string)
    requires Lines(k + ":" + rest) != [] && Split(Lines(k + ":" + rest)[0]) != []
    ensures var f := Split(Lines(k + ":" + rest)[0])[0];
            |f| <= |k| && f == k[..|f|] && (f == k ==> Plain(k))
  {
    var file := k + ":" + rest;
    var line := file[..IndexOf(file, '\n')];
    var i := IndexOf(line, ':');
    IndexOfFirst(file, '\n');
    IndexOfFirst(line, ':');
    assert Lines(file)[0] == line && Split(line)[0] == line[..i];
    assert |line| > |k| ==> line[|k|] == ':';
    assert line[..i] == file[..i] == k[..i];
  }

  lemma {:induction false} PrefixLeq(k: string, n: nat)
    requires n <= |k|
    ensures Leq(k[..n], k)
  {
    if n > 0 {
      assert k[..n][1..] == k[1..][..n - 1];
      PrefixLeq(k[1..], n - 1);
    }
  }

  /** A restart from a printed cache that succeeds is one that the session machine allows if
      and only if the least key has no colon or newline: otherwise the only path that is loaded
      is a beginning of the least one, which was never cached. */
  lemma {:induction false} RestartReloadableIff(m: Cache, c: Cache, before: map<string, Session.Entry>, after: map<string, Session.Entry>)
    requires m != map[] && Load(map[], Print(m)) == Loaded(c)
    requires Abstracts(m, before) && Abstracts(c, after)
    ensures Session.Reloadable(before, after) <==> Plain(Min(m.Keys))
    ensures !Plain(Min(m.Keys)) ==> forall k :: k in c ==> k !in m
  {
    var k := Min(m.Keys);
    if Plain(k) {
      RestartReloadable(m, c, before, after);
    } else {
      StrangerLoaded(m, c);
      assert c.Keys == after.Keys;
      var f :| f in c && f !in m;
      assert f in after && f !in before;
    }
  }

  lemma {:induction false} StrangerLoaded(m: Cache, c: Cache)
    requires m != map[] && Load(map[], Print(m)) == Loaded(c) && !Plain(Min(m.Keys))
    ensures (exists k :: k in c) && forall k :: k in c ==> k !in m
  {
    hide Split, Lines, Load, PrintKeys, Print, Leq;
    var k := Min(m.Keys);
    var rest := PrintHead(m);
    OnlyFirstKey(Print(m));
    FirstField(k, rest);
    var f := Split(Lines(Print(m))[0])[0];
    PrefixLeq(k, |f|);
    LeqTotal(f, k);
    assert f in c;
  }

  lemma {:induction false} PrintHead(m: Cache) returns (rest: string)
    requires m != map[]
    ensures Print(m) == Min(m.Keys) + ":" + rest
  {
    hide PrintNumbers, Numbers;
    var k := Min(m.Keys);
    rest := PrintNumbers(Numbers(m[k])) + "\n" + PrintKeys(m, m.Keys - {k});
    assert Print(m) == PrintEntry(k, m[k]) + "\n" + PrintKeys(m, m.Keys - {k});
    assert PrintEntry(k, m[k]) == k + ":" + PrintNumbers(Numbers(m[k]));
  }

  /** The smallest such case: the file at path `a:1` comes back as path `a`, with the numbers
      moved by one place, and nothing fails. */
  lemma {:induction false} ColonLoads(v: Value)
    requires Fits(v)
    ensures var ns := Numbers(v);
            Load(map[], Print(map["a:1" := v])) == Loaded(map["a" := Build([1] + ns[..14])])
  {
    var m: Cache := map["a:1" := v];
    var ns := Numbers(v);
    var line := PrintEntry("a:1", v);
    assert m.Keys == {"a:1"};
    assert Print(m) == line + "\n" + PrintKeys(m, {}) by {
      assert Min(m.Keys) == "a:1" && m.Keys - {"a:1"} == {};
    }
    SplitNumbers(ns);
    assert line == "a:1" + ":" + PrintNumbers(ns);
    assert '\n' !in line;
    LinesCons(line, "");
    ColonFields(v);
    var fields := Split(line);
    var l := Line("a", Build([1] + ns[..14]));
    assert [] + fields == fields;
    var once: Cache := map["a" := l.value];
    assert Insert(map[], "a", l.value) == once;
    assert ([line] + Lines(""))[0] == line;
    CarryKeeps(once, fields, [], l);
    assert ([line] + Lines(""))[1..] == [];
  }

  lemma {:induction false} ColonFields(v: Value)
    requires Fits(v)
    ensures ParseFields(Split(PrintEntry("a:1", v))) == Some(Line("a", Build([1] + Numbers(v)[..14])))
  {
    var all := [1] + Numbers(v);
    ColonSplit(Numbers(v));
    assert all[..15] == [1] + Numbers(v)[..14];
    ParseRow("a", all);
  }

  lemma {:induction false} ColonSplit(ns: seq<int>)
    ensures Split("a:1" + ":" + PrintNumbers(ns)) == ["a"] + Decs([1] + ns)
  {
    var all := [1] + ns;
    assert all[0] == 1 && all[1..] == ns && DecInt(1) == "1";
    assert PrintNumbers(all) == "1" + ":" + PrintNumbers(ns);
    assert "a:1" + ":" + PrintNumbers(ns) == "a" + ":" + PrintNumbers(all);
    SplitOne("a", PrintNumbers(all));
    SplitNumbers(all);
  }

  lemma {:induction false} ParseRow(key: string, ns: seq<int>)
    requires |ns| >= 15 && Ints(ns[..15])
    ensures ParseFields([key] + Decs(ns)) == Some(Line(key, Build(ns[..15])))
  {
    DecsPrefix(ns, 15);
    assert ([key] + Decs(ns))[1..16] == Decs(ns)[..15];
    StoiAllDecs(ns[..15]);
  }

  lemma {:induction false} DecsPrefix(ns: seq<int>, n: nat)
    requires n <= |ns|
    ensures Decs(ns)[..n] == Decs(ns[..n])
  {
    if n > 0 {
      DecsPrefix(ns[1..], n - 1);
      assert ns[..n][1..] == ns[1..][..n - 1];
    }
  }

  // ----- the repaired loader -----------------------------------------------------------

  /** `c` is `cache` with the entries of `m` under `keys` inserted clean. */
  ghost predicate Merged(cache: Cache, m: Cache, keys: set<string>, c: Cache)
    requires keys <= m.Keys
  {
    && c.Keys == cache.Keys + keys
    && (forall k :: k in cache ==> c[k] == cache[k])
    && (forall k :: k in keys && k !in cache ==> c[k] == Clean(m[k]))
  }

  lemma {:induction false} FreshLine(cache: Cache, before: seq<string>, k: string, v: Value, rest: string)
    requires Plain(k)
    ensures LoadLines(cache, false, before, Lines(PrintEntry(k, v) + "\n" + rest)) ==
            if Fits(v) then LoadLines(Insert(cache, k, Clean(v)), false, Split(PrintEntry(k, v)), Lines(rest)) else Failed
  {
    EntryIsLine(k, v);
    LinesCons(PrintEntry(k, v), rest);
    var fields := Split(PrintEntry(k, v));
    ParseEntry(k, v, []);
    assert fields + [] == fields && [] + fields == fields;
    var lines := [PrintEntry(k, v)] + Lines(rest);
    assert lines[0] == PrintEntry(k, v) && lines[1..] == Lines(rest);
  }

  lemma {:induction false} MergedCons(cache: Cache, m: Cache, keys: set<string>, k: string, c: Cache)
    requires k in keys && keys <= m.Keys
    requires Merged(Insert(cache, k, Clean(m[k])), m, keys - {k}, c)
    ensures Merged(cache, m, keys, c)
  {
    assert keys == (keys - {k}) + {k};
    assert c.Keys == cache.Keys + keys;
  }

  ghost predicate AllFit(m: Cache, keys: set<string>)
    requires keys <= m.Keys
  {
    forall k :: k in keys ==> Fits(m[k])
  }

  lemma {:induction false} RepairedKeys(cache: Cache, m: Cache, keys: set<string>, before: seq<string>)
    requires keys <= m.Keys && forall k :: k in keys ==> Plain(k)
    ensures var out := LoadLines(cache, false, before, Lines(PrintKeys(m, keys)));
            if AllFit(m, keys) then out.Loaded? && Merged(cache, m, keys, out.cache) else out.Failed?
    decreases keys
  {
    if keys != {} {
      var k := Min(keys);
      var rest := keys - {k};
      FreshLine(cache, before, k, m[k], PrintKeys(m, rest));
      assert AllFit(m, keys) <==> Fits(m[k]) && AllFit(m, rest) by {
        assert keys == rest + {k};
      }
      if Fits(m[k]) {
        var next, fields := Insert(cache, k, Clean(m[k])), Split(PrintEntry(k, m[k]));
        RepairedKeys(next, m, rest, fields);
        if AllFit(m, rest) {
          MergedCons(cache, m, keys, k, LoadLines(next, false, fields, Lines(PrintKeys(m, rest))).cache);
        }
      }
    }
  }

  /** With the fields cleared for each line, a restart finds every entry, clean, if and
      only if every entry can be read back. */
  lemma {:induction false} RepairedRestart(m: Cache)
    ensures var out := RepairedLoad(map[], Print(m));
            (out.Loaded? && Merged(map[], m, m.Keys, out.cache)) <==> forall k :: k in m ==> Plain(k) && Fits(m[k])
  {
    var out := RepairedLoad(map[], Print(m));
    if forall k :: k in m ==> Plain(k) {
      RepairedKeys(map[], m, m.Keys, []);
    } else if out.Loaded? {
      LinesPlain(Print(m));
      LoadedPlain(map[], false, [], Lines(Print(m)));
    }
  }

  /** The loader as written finds every entry again if and only if there is at most one, and
      that one survives the format. */
  lemma {:induction false} RestartWholeIff(m: Cache)
    ensures var out := Load(map[], Print(m));
            (out.Loaded? && Merged(map[], m, m.Keys, out.cache)) <==>
            m == map[] || (|m| == 1 && forall k :: k in m ==> Plain(k) && Fits(m[k]))
  {
    var out := Load(map[], Print(m));
    if m != map[] {
      var k := Min(m.Keys);
      OneKey(m.Keys, k);
      if Plain(k) {
        FirstLine(k, m[k], PrintKeys(m, m.Keys - {k}));
      } else if out.Loaded? {
        LinesPlain(Print(m));
        LoadedPlain(map[], true, [], Lines(Print(m)));
      }
    }
  }

  lemma {:induction false} OneKey(keys: set<string>, k: string)
    requires k in keys
    ensures |keys| == 1 <==> keys == {k}
  {
    assert |keys - {k}| == |keys| - 1;
    assert keys - {k} == {} <==> keys == {k};
  }

  // ----- a save that is cut short ---------------------------------------------------------

  function Colons(s: string): nat {
    if s == "" then 0 else (if s[0] == ':' then 1 else 0) + Colons(s[1..])
  }

  lemma {:induction false} ColonsConcat(a: string, b: string)
    ensures Colons(a + b) == Colons(a) + Colons(b)
    decreases |a|
  {
    if a == "" {
      assert a + b == b;
    } else {
      assert (a + b)[0] == a[0] && (a + b)[1..] == a[1..] + b;
      ColonsConcat(a[1..], b);
    }
  }

  lemma {:induction false} NoColons(s: string)
    ensures ':' !in s ==> Colons(s) == 0
    ensures s != "" && s[|s| - 1] == ':' ==> Colons(s) > 0
  {
    if |s| > 1 {
      NoColons(s[1..]);
    }
  }

  /** There are as many fields as colons. */
  lemma {:induction false} SplitCount(s: string)
    ensures |Split(s)| == Colons(s)
    decreases |s|
  {
    hide Colons;
    var i := IndexOf(s, ':');
    IndexOfFirst(s, ':');
    NoColons(s[..i]);
    if i < |s| {
      assert s == s[..i] + ([':'] + s[i + 1..]);
      ColonsConcat(s[..i], [':'] + s[i + 1..]);
      ColonsCons(s[i + 1..]);
      SplitCount(s[i + 1..]);
    } else {
      assert s == s[..i];
    }
  }

  lemma {:induction false} ColonsCons(s: string)
    ensures Colons([':'] + s) == 1 + Colons(s)
  {
    assert ([':'] + s)[1..] == s;
  }

  lemma {:induction false} NumbersEnd(ns: seq<int>)
    requires ns != []
    ensures PrintNumbers(ns) != "" && PrintNumbers(ns)[|PrintNumbers(ns)| - 1] == ':'
  {
    if |ns| > 1 {
      NumbersEnd(ns[1..]);
    }
  }

  /** A text that ends with a colon loses a field with its last character. */
  lemma {:induction false} CutField(line: string, j: nat)
    requires j < |line| && line[|line| - 1] == ':'
    ensures |Split(line[..j])| < |Split(line)|
  {
    var head, tail := line[..j], line[j..];
    assert head + tail == line && tail != "" && tail[|tail| - 1] == ':';
    SplitCount(line);
    SplitCount(head);
    ColonsConcat(head, tail);
    NoColons(tail);
  }

  /** A line that is cut short has too few fields. */
  lemma {:induction false} CutEntry(k: string, v: Value, j: nat)
    requires Plain(k) && j < |PrintEntry(k, v)|
    ensures |Split(PrintEntry(k, v)[..j])| < 16
  {
    NumbersEnd(Numbers(v));
    SplitEntry(k, v);
    CutField(PrintEntry(k, v), j);
  }

  lemma {:induction false} LoadOne(line: string)
    requires line != "" && '\n' !in line
    ensures Load(map[], line) ==
            match ParseFields(Split(line))
            case None => Failed
            case Some(l) => Loaded(map[l.key := l.value])
  {
    IndexOfFirst(line, '\n');
    assert line[..|line|] == line;
    assert Lines(line) == [line] + Lines("");
    assert [line][0] == line && [line][1..] == [] && [line] + [] == [line];
    assert [] + Split(line) == Split(line);
    var fs := Split(line);
    if ParseFields(fs).Some? {
      var l := ParseFields(fs).value;
      assert Insert(map[], l.key, l.value) == map[l.key := l.value];
      assert LoadLines(map[l.key := l.value], true, fs, []) == Loaded(map[l.key := l.value]);
    }
  }

  lemma {:induction false} CutLine(k: string, v: Value, j: nat)
    requires Plain(k) && 0 < j <= |PrintEntry(k, v)|
    ensures Load(map[], PrintEntry(k, v)[..j]) ==
            if j == |PrintEntry(k, v)| && Fits(v) then Loaded(map[k := Clean(v)]) else Failed
  {
    var line := PrintEntry(k, v);
    var cut := line[..j];
    EntryIsLine(k, v);
    LoadOne(cut);
    if j < |line| {
      CutEntry(k, v, j);
    } else {
      assert cut == line && Split(line) + [] == Split(line);
      ParseEntry(k, v, []);
    }
  }

  /** What a process that dies while saving leaves behind: an empty file loads as an empty
      cache, a file cut inside its first line does not load, and any longer piece loads like
      the whole file. */
  lemma {:induction false} CutSave(m: Cache, j: nat)
    requires m != map[] && Plain(Min(m.Keys)) && j <= |Print(m)|
    ensures Load(map[], Print(m)[..j]) ==
            if j == 0 then Loaded(map[])
            else if j < |PrintEntry(Min(m.Keys), m[Min(m.Keys)])| then Failed
            else Load(map[], Print(m))
  {
    var k := Min(m.Keys);
    var line, rest := PrintEntry(k, m[k]), PrintKeys(m, m.Keys - {k});
    assert Print(m) == line + "\n" + rest;
    FirstLine(k, m[k], rest);
    if 0 < j <= |line| {
      assert Print(m)[..j] == line[..j];
      CutLine(k, m[k], j);
    } else if j > |line| {
      var more := rest[..j - |line| - 1];
      assert Print(m)[..j] == line + "\n" + more;
      FirstLine(k, m[k], more);
    }
  }

  /** So a restart after a death in mid-save fails, or is one that the session machine allows. */
  lemma {:induction false} CutReloadable(m: Cache, j: nat, c: Cache, before: map<string, Session.Entry>, after: map<string, Session.Entry>)
    requires (m != map[] ==> Plain(Min(m.Keys))) && j <= |Print(m)|
    requires Load(map[], Print(m)[..j]) == Loaded(c)
    requires Abstracts(m, before) && Abstracts(c, after)
    ensures Session.Reloadable(before, after)
  {
    if m != map[] {
      CutSave(m, j);
      if j > 0 {
        RestartReloadable(m, c, before, after);
      }
    }
  }
}
