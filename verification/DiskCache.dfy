/** The client's cache: a map that every change writes through to the cache file.  The
    semaphore around each operation is the subject of the module Locks. */
module DiskCache {
  import opened Options
  import opened CacheFile
  import opened CacheTheorems
  import opened Text
  import Session

  datatype Op =
    | Add(key: string, value: Value)
    | Update(key: string, value: Value)
    | Delete(key: string)
    | Rename(key: string, newKey: string)

  /** The map and the bytes of the cache file; a missing file is an empty one. */
  datatype Store = Store(cache: Cache, file: string)

  /** The map and its lines in key order. */
  function Saved(cache: Cache): Store {
    Store(cache, Print(cache))
  }

  /** The entries under all other keys are as they were. */
  ghost predicate OthersKept(before: Cache, after: Cache, keys: set<string>) {
    forall k :: k !in keys ==> (k in before <==> k in after) && (k in before ==> after[k] == before[k])
  }

  /** What each operation leaves behind: only an operation that finds its key saves, except
      that adding always does; adding and renaming never replace an entry. */
  function Apply(s: Store, op: Op): Store {
    match op
    case Add(key, value) => Saved(Insert(s.cache, key, value))
    case Update(key, value) => if key in s.cache then Saved(s.cache[key := value]) else s
    case Delete(key) => if key in s.cache then Saved(s.cache - {key}) else s
    case Rename(key, newKey) => if key in s.cache then Saved(Session.MoveEntry(s.cache, key, newKey)) else s
  }

  function Run(s: Store, ops: seq<Op>): Store
    decreases |ops|
  {
    if ops == [] then s else Run(Apply(s, ops[0]), ops[1..])
  }

  /** Write-through: a run changes nothing at all, or leaves in the file exactly the lines
      of the map. */
  lemma {:induction false} RunSaves(s: Store, ops: seq<Op>)
    ensures Run(s, ops) == s || Run(s, ops).file == Print(Run(s, ops).cache)
    decreases |ops|
  {
    if ops != [] {
      RunSaves(Apply(s, ops[0]), ops[1..]);
    }
  }

  predicate PlainOp(op: Op) {
    Plain(op.key) && (op.Rename? ==> Plain(op.newKey))
  }

  lemma {:induction false} RunPlain(s: Store, ops: seq<Op>)
    requires forall k :: k in s.cache ==> Plain(k)
    requires forall i :: 0 <= i < |ops| ==> PlainOp(ops[i])
    ensures forall k :: k in Run(s, ops).cache ==> Plain(k)
    decreases |ops|
  {
    if ops != [] {
      assert PlainOp(ops[0]);
      assert forall i :: 0 <= i < |ops[1..]| ==> ops[1..][i] == ops[i + 1];
      RunPlain(Apply(s, ops[0]), ops[1..]);
    }
  }

  /** One life of a client, from its start-up load over any operations to its death, between
      two operations or in the middle of a save, and the load of the next life: that load
      fails, or the next life finds some of the entries, and clean. */
  lemma {:induction false} NextLife(found: string, first: Cache, ops: seq<Op>, left: string, next: Cache,
                                    before: map<string, Session.Entry>, after: map<string, Session.Entry>)
    requires Load(map[], found) == Loaded(first)
    requires forall i :: 0 <= i < |ops| ==> PlainOp(ops[i])
    requires left == Run(Store(first, found), ops).file || left <= Print(Run(Store(first, found), ops).cache)
    requires Load(map[], left) == Loaded(next)
    requires Abstracts(Run(Store(first, found), ops).cache, before) && Abstracts(next, after)
    ensures Session.Reloadable(before, after)
  {
    var start := Store(first, found);
    var end := Run(start, ops);
    RunSaves(start, ops);
    LoadedClean(map[], true, [], Lines(found));
    LinesPlain(found);
    LoadedPlain(map[], true, [], Lines(found));
    RunPlain(start, ops);
    if left <= Print(end.cache) {
      assert left == Print(end.cache)[..|left|];
      CutReloadable(end.cache, |left|, next, before, after);
    }
  }

  class DiskCache {
    var cache: Cache
    var file: string

    function Now(): Store
      reads this
    {
      Store(cache, file)
    }

    constructor (found: string)
      ensures cache == map[] && file == found
    {
      cache, file := map[], found;
    }

    method GetCacheValue(key: string) returns (value: Option<Value>)
      ensures value == if key in cache then Some(cache[key]) else None
    {
      if key in cache {
        return Some(cache[key]);
      }
      return None;
    }

    method SaveCache()
      modifies `file
      ensures file == Print(cache)
    {
      file := "";
      var left := cache.Keys;
      while left != {}
        invariant left <= cache.Keys
        invariant file + PrintKeys(cache, left) == Print(cache)
        decreases left
      {
        SaveStep(file, cache, left);
        var key := Min(left);
        var line := PrintValue(key, cache[key]);
        file := file + line;
        left := left - {key};
      }
    }

    /** One output statement: the key, the dirty flag and the other numbers. */
    method PrintValue(key: string, value: Value) returns (line: string)
      ensures line == PrintEntry(key, value) + "\n"
    {
      line := key + ":" + (if value.dirty then "1" else "0") + ":" + PrintNumbers(Numbers(value)[1..]) + "\n";
      PrintEntryFlag(key, value);
    }

    method AddCacheValue(key: string, value: Value)
      modifies this
      ensures Now() == Apply(old(Now()), Add(key, value)) && file == Print(cache)
      ensures key in cache && cache[key] == if key in old(cache) then old(cache[key]) else value
      ensures OthersKept(old(cache), cache, {key})
    {
      if key !in cache {
        cache := cache[key := value];
      }
      SaveCache();
    }

    method UpdateCacheValue(key: string, value: Value)
      modifies this
      ensures Now() == Apply(old(Now()), Update(key, value))
      ensures if key in old(cache) then key in cache && cache[key] == value && file == Print(cache)
              else cache == old(cache) && file == old(file)
      ensures OthersKept(old(cache), cache, {key})
    {
      if key in cache {
        cache := cache[key := value];
        SaveCache();
      }
    }

    method DeleteCacheValue(key: string)
      modifies this
      ensures Now() == Apply(old(Now()), Delete(key))
      ensures key !in cache && OthersKept(old(cache), cache, {key})
      ensures file == if key in old(cache) then Print(cache) else old(file)
    {
      if key in cache {
        cache := cache - {key};
        SaveCache();
      }
    }

    method RenameCacheValue(key: string, newKey: string)
      modifies this
      ensures Now() == Apply(old(Now()), Rename(key, newKey))
      ensures key !in old(cache) ==> cache == old(cache) && file == old(file)
      ensures key in old(cache) ==> file == Print(cache) && newKey in cache && (key in cache ==> key == newKey)
      ensures key in old(cache) && (newKey !in old(cache) || newKey == key) ==> cache[newKey] == old(cache[key])
      ensures key in old(cache) && newKey in old(cache) ==> cache[newKey] == old(cache[newKey])
      ensures OthersKept(old(cache), cache, {key, newKey})
    {
      if key in cache {
        var temp := cache[key];
        cache := cache - {key};
        if newKey !in cache {
          cache := cache[newKey := temp];
        }
        SaveCache();
      }
    }

    /** False stands for the death of the process. */
    method LoadCache() returns (ok: bool)
      modifies `cache
      ensures Load(old(cache), file) == if ok then Loaded(cache) else Failed
    {
      var rest := file;
      var substrings: seq<string> := [];
      while rest != ""
        invariant Load(old(cache), file) == LoadLines(cache, true, substrings, Lines(rest))
        decreases |rest|
      {
        LoadStep(cache, substrings, rest);
        var end := IndexOf(rest, '\n');
        substrings := AppendFields(substrings, rest[..end]);
        rest := if end < |rest| then rest[end + 1..] else "";
        var parsed := ReadEntry(substrings);
        if parsed.None? {
          return false;
        }
        if parsed.value.key !in cache {
          cache := cache[parsed.value.key := parsed.value.value];
        }
      }
      return true;
    }

    /** The loop of `find` and `substr` over one line. */
    method AppendFields(before: seq<string>, line: string) returns (substrings: seq<string>)
      ensures substrings == before + Split(line)
    {
      substrings := before;
      var start := 0;
      var pos := IndexOf(line, ':');
      assert line[0..] == line;
      while pos < |line|
        invariant start <= pos <= |line| && pos == start + IndexOf(line[start..], ':')
        invariant before + Split(line) == substrings + Split(line[start..])
        decreases |line| - start
      {
        AppendStep(substrings, line, start, pos - start);
        substrings := substrings + [line[start..pos]];
        start := pos + 1;
        pos := start + IndexOf(line[start..], ':');
      }
    }

    /** The sixteen conversions, in the order of the code. */
    method ReadEntry(fields: seq<string>) returns (line: Option<Line>)
      ensures line == ParseFields(fields)
    {
      if |fields| < 16 {
        return None;
      }
      var numbers: seq<int> := [];
      var i := 1;
      PrependNothing(StoiAll(fields[1..16]));
      while i < 16
        invariant 1 <= i <= 16 && |numbers| == i - 1
        invariant StoiAll(fields[1..16]) == Prepend(numbers, StoiAll(fields[i..16]))
      {
        StoiStep(numbers, fields, i);
        var n := Stoi(fields[i]);
        if n.None? {
          return None;
        }
        numbers := numbers + [n.value];
        i := i + 1;
      }
      assert fields[16..16] == [];
      PrependDone(numbers);
      return Some(Line(fields[0], Build(numbers)));
    }
  }

  lemma {:induction false} PrintEntryFlag(key: string, v: Value)
    ensures key + ":" + (if v.dirty then "1" else "0") + ":" + PrintNumbers(Numbers(v)[1..]) == PrintEntry(key, v)
  {
    var ns := Numbers(v);
    assert DecInt(ns[0]) == if v.dirty then "1" else "0";
    assert PrintNumbers(ns) == DecInt(ns[0]) + ":" + PrintNumbers(ns[1..]);
  }

  lemma {:induction false} SplitHead(s: string)
    requires IndexOf(s, ':') < |s|
    ensures Split(s) == [s[..IndexOf(s, ':')]] + Split(s[IndexOf(s, ':') + 1..])
  {
  }

  lemma {:induction false} SplitStep(line: string, start: nat, i: nat)
    requires start + i < |line| && i == IndexOf(line[start..], ':')
    ensures Split(line[start..]) == [line[start..start + i]] + Split(line[start + i + 1..])
  {
    hide Split, IndexOf;
    SplitHead(line[start..]);
    Slices(line, start, i);
  }

  lemma {:induction false} AppendStep(fs: seq<string>, line: string, start: nat, i: nat)
    requires start + i < |line| && i == IndexOf(line[start..], ':')
    ensures fs + Split(line[start..]) == fs + [line[start..start + i]] + Split(line[start + i + 1..])
  {
    SplitStep(line, start, i);
  }

  ghost function Prepend(ns: seq<int>, rest: Option<seq<int>>): Option<seq<int>> {
    if rest.None? then None else Some(ns + rest.value)
  }

  lemma {:induction false} PrependNothing(rest: Option<seq<int>>)
    ensures Prepend([], rest) == rest
  {
    if rest.Some? {
      assert [] + rest.value == rest.value;
    }
  }

  lemma {:induction false} PrependDone(ns: seq<int>)
    ensures Prepend(ns, StoiAll([])) == Some(ns)
  {
    assert ns + [] == ns;
  }

  lemma {:induction false} StoiStep(ns: seq<int>, fields: seq<string>, i: nat)
    requires i < 16 <= |fields|
    ensures Prepend(ns, StoiAll(fields[i..16])) ==
            if Stoi(fields[i]).None? then None else Prepend(ns + [Stoi(fields[i]).value], StoiAll(fields[i + 1..16]))
  {
    var fs, rest := fields[i..16], fields[i + 1..16];
    assert fs[0] == fields[i] && fs[1..] == rest;
    if Stoi(fields[i]).Some? && StoiAll(rest).Some? {
      var n, more := Stoi(fields[i]).value, StoiAll(rest).value;
      assert ns + ([n] + more) == ns + [n] + more;
    }
  }

  lemma {:induction false} Slices(line: string, start: nat, i: nat)
    requires start + i < |line|
    ensures line[start..][..i] == line[start..start + i]
    ensures line[start..][i + 1..] == line[start + i + 1..]
  {
  }

  lemma {:induction false} SaveStep(done: string, cache: Cache, left: set<string>)
    requires left != {} && left <= cache.Keys
    ensures var k := Min(left);
            done + PrintKeys(cache, left) == done + (PrintEntry(k, cache[k]) + "\n") + PrintKeys(cache, left - {k})
  {
  }

  lemma {:induction false} LoadStep(cache: Cache, before: seq<string>, rest: string)
    requires rest != ""
    ensures var end := IndexOf(rest, '\n');
            var fields := before + Split(rest[..end]);
            LoadLines(cache, true, before, Lines(rest)) ==
            match ParseFields(fields)
            case None => Failed
            case Some(l) =>
              LoadLines(Insert(cache, l.key, l.value), true, fields, Lines(if end < |rest| then rest[end + 1..] else ""))
  {
    var end := IndexOf(rest, '\n');
    var more := Lines(if end < |rest| then rest[end + 1..] else "");
    assert ([rest[..end]] + more)[0] == rest[..end] && ([rest[..end]] + more)[1..] == more;
  }
}
