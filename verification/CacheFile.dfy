/** The text of the cache file: one line an entry, in key order, and the loader that
    reads it back at start-up. */
module CacheFile {
  import opened Options
  import opened Text
  import Session

  type I32 = x: int | -0x8000_0000 <= x < 0x8000_0000
  type U32 = n: int | 0 <= n < 0x1_0000_0000
  type U64 = n: int | 0 <= n < 0x1_0000_0000_0000_0000

  /** Conversion of a number to a C `int`, `unsigned int` or 64-bit `unsigned long`. */
  function ToI32(x: int): I32 {
    var n := ToU32(x);
    if n < 0x8000_0000 then n else n - 0x1_0000_0000
  }

  function ToU32(x: int): U32 {
    x % 0x1_0000_0000
  }

  function ToU64(x: int): U64 {
    x % 0x1_0000_0000_0000_0000
  }

  datatype Info = Info(dev: U32, ino: U32, mode: U32, nlink: U32, uid: U32, gid: U32, rdev: U32,
                       size: U64, blksize: U64, blocks: U64, atim: U64, mtim: U64, ctim: U64)

  datatype Value = Value(info: Info, dirty: bool, fd: I32)

  type Cache = map<string, Value>

  // ----- one line ---------------------------------------------------------------------

  /** The numbers of an entry in the order of the file. */
  function Numbers(v: Value): (ns: seq<int>)
    ensures |ns| == 15
  {
    [if v.dirty then 1 else 0, v.fd, v.info.dev, v.info.ino, v.info.mode, v.info.nlink, v.info.uid, v.info.gid,
     v.info.rdev, v.info.size, v.info.blksize, v.info.blocks, v.info.atim, v.info.mtim, v.info.ctim]
  }

  function PrintNumbers(ns: seq<int>): string {
    if ns == [] then "" else DecInt(ns[0]) + ":" + PrintNumbers(ns[1..])
  }

  function PrintEntry(key: string, v: Value): string {
    key + ":" + PrintNumbers(Numbers(v))
  }

  /** Index of the first `c`, or the length of `s`. */
  function IndexOf(s: string, c: char): (i: nat)
    ensures i <= |s|
  {
    if s == "" || s[0] == c then 0 else 1 + IndexOf(s[1..], c)
  }

  lemma {:induction false} IndexOfFirst(s: string, c: char)
    ensures c !in s[..IndexOf(s, c)]
    ensures IndexOf(s, c) < |s| ==> s[IndexOf(s, c)] == c
  {
    if s != "" && s[0] != c {
      IndexOfFirst(s[1..], c);
      assert s[..IndexOf(s, c)] == [s[0]] + s[1..][..IndexOf(s[1..], c)];
    }
  }

  /** The pieces that a colon ends; what follows the last colon is dropped. */
  function Split(line: string): seq<string> {
    var i := IndexOf(line, ':');
    if i == |line| then [] else [line[..i]] + Split(line[i + 1..])
  }

  function StoiAll(fs: seq<string>): Option<seq<int>> {
    if fs == [] then Some([])
    else
      match (Stoi(fs[0]), StoiAll(fs[1..]))
      case (Some(n), Some(ns)) => Some([n] + ns)
      case _ => None
  }

  /** The entry that fifteen numbers make; the constructor takes no notice of the first. */
  function Build(ns: seq<int>): Value
    requires |ns| == 15
  {
    Value(Info(ToU32(ns[2]), ToU32(ns[3]), ToU32(ns[4]), ToU32(ns[5]), ToU32(ns[6]), ToU32(ns[7]), ToU32(ns[8]),
               ToU64(ns[9]), ToU64(ns[10]), ToU64(ns[11]), ToU64(ns[12]), ToU64(ns[13]), ToU64(ns[14])),
          false, ToI32(ns[1]))
  }

  datatype Line = Line(key: string, value: Value)

  /** The entry in the first sixteen fields, or none: a field is missing or no `int`. */
  function ParseFields(fs: seq<string>): Option<Line> {
    if |fs| < 16 then None
    else
      match StoiAll(fs[1..16])
      case Some(ns) => if |ns| == 15 then Some(Line(fs[0], Build(ns))) else None
      case None => None
  }

  // ----- the file -----------------------------------------------------------------------

  /** The order of `std::map`: lexicographic. */
  predicate Leq(a: string, b: string) {
    a == "" || (b != "" && (a[0] < b[0] || (a[0] == b[0] && Leq(a[1..], b[1..]))))
  }

  lemma {:induction false} LeqTotal(a: string, b: string)
    ensures Leq(a, b) || Leq(b, a)
    ensures Leq(a, b) && Leq(b, a) ==> a == b
  {
    if a != "" && b != "" {
      LeqTotal(a[1..], b[1..]);
    }
  }

  lemma {:induction false} LeqTrans(a: string, b: string, c: string)
    requires Leq(a, b) && Leq(b, c)
    ensures Leq(a, c)
  {
    if a != "" && a[0] == b[0] == c[0] {
      LeqTrans(a[1..], b[1..], c[1..]);
    }
  }

  predicate Least(k: string, keys: set<string>) {
    k in keys && forall j :: j in keys ==> Leq(k, j)
  }

  lemma {:induction false} LeastExists(keys: set<string>) returns (k: string)
    requires keys != {}
    ensures Least(k, keys)
  {
    k :| k in keys;
    var rest := keys - {k};
    if rest == {} {
      assert keys == {k};
      LeqTotal(k, k);
    } else {
      var m := LeastExists(rest);
      LeqTotal(k, m);
      if Leq(k, m) {
        forall j | j in keys
          ensures Leq(k, j)
        {
          if j == k {
            LeqTotal(k, k);
          } else {
            LeqTrans(k, m, j);
          }
        }
      } else {
        k := m;
      }
    }
  }

  /** Where `begin()` of a non-empty map with these keys points. */
  function Min(keys: set<string>): (k: string)
    requires keys != {}
    ensures Least(k, keys)
  {
    assert exists k :: k in keys && Least(k, keys) by {
      var k := LeastExists(keys);
    }
    assert forall k, m :: Least(k, keys) && Least(m, keys) ==> k == m by {
      forall k, m | Least(k, keys) && Least(m, keys)
        ensures k == m
      {
        LeqTotal(k, m);
      }
    }
    var k :| k in keys && Least(k, keys);
    k
  }

  /** What `saveCache` prints for the entries under `keys`. */
  function PrintKeys(cache: Cache, keys: set<string>): string
    requires keys <= cache.Keys
    decreases keys
  {
    if keys == {} then ""
    else
      var k := Min(keys);
      PrintEntry(k, cache[k]) + "\n" + PrintKeys(cache, keys - {k})
  }

  function Print(cache: Cache): string {
    PrintKeys(cache, cache.Keys)
  }

  /** The lines that `getline` returns: a last one without a newline counts if non-empty. */
  function Lines(file: string): seq<string>
    decreases |file|
  {
    if file == "" then []
    else
      var i := IndexOf(file, '\n');
      [file[..i]] + Lines(if i < |file| then file[i + 1..] else "")
  }

  /** How loading ends; on `Failed` the process dies of an exception or worse. */
  datatype Outcome = Loaded(cache: Cache) | Failed

  function Insert(cache: Cache, key: string, v: Value): Cache {
    if key in cache then cache else cache[key := v]
  }

  /** The loop over the lines.  With `carry`, as in the code, the fields of the earlier
      lines are still there; without it, each line starts afresh. */
  function LoadLines(cache: Cache, carry: bool, before: seq<string>, lines: seq<string>): Outcome
    decreases |lines|
  {
    if lines == [] then Loaded(cache)
    else
      var fields := (if carry then before else []) + Split(lines[0]);
      match ParseFields(fields)
      case None => Failed
      case Some(l) => LoadLines(Insert(cache, l.key, l.value), carry, fields, lines[1..])
  }

  function Load(cache: Cache, file: string): Outcome {
    LoadLines(cache, true, [], Lines(file))
  }

  /** The loader with `substrings` declared inside the loop. */
  function RepairedLoad(cache: Cache, file: string): Outcome {
    LoadLines(cache, false, [], Lines(file))
  }

  // ----- the codec ------------------------------------------------------------------------

  /** A key that survives the line format. */
  predicate Plain(key: string) {
    ':' !in key && '\n' !in key
  }

  /** `stoi` reads every number into an `int`. */
  predicate Fits(v: Value) {
    Ints(Numbers(v))
  }

  function Clean(v: Value): Value {
    v.(dirty := false)
  }

  lemma {:induction false} IndexOfAt(s: string, c: char, t: string)
    requires c !in s
    ensures IndexOf(s + [c] + t, c) == |s|
  {
    if s == "" {
      assert ([] + [c] + t)[0] == c;
    } else {
      assert (s + [c] + t)[0] == s[0] && (s + [c] + t)[1..] == s[1..] + [c] + t;
      IndexOfAt(s[1..], c, t);
    }
  }

  lemma {:induction false} SplitOne(f: string, rest: string)
    requires ':' !in f
    ensures Split(f + ":" + rest) == [f] + Split(rest)
  {
    var line := f + ":" + rest;
    IndexOfAt(f, ':', rest);
    assert line[..|f|] == f && line[|f| + 1..] == rest;
  }

  function Decs(ns: seq<int>): (fs: seq<string>)
    ensures |fs| == |ns|
  {
    if ns == [] then [] else [DecInt(ns[0])] + Decs(ns[1..])
  }

  lemma {:induction false} SplitNumbers(ns: seq<int>)
    ensures Split(PrintNumbers(ns)) == Decs(ns)
    ensures '\n' !in PrintNumbers(ns)
  {
    if ns != [] {
      SplitOne(DecInt(ns[0]), PrintNumbers(ns[1..]));
      SplitNumbers(ns[1..]);
    }
  }

  predicate Ints(ns: seq<int>) {
    forall i :: 0 <= i < |ns| ==> -0x8000_0000 <= ns[i] < 0x8000_0000
  }

  lemma {:induction false} StoiAllDecs(ns: seq<int>)
    ensures StoiAll(Decs(ns)) == if Ints(ns) then Some(ns) else None
  {
    if ns != [] {
      var fs := Decs(ns);
      assert fs[0] == DecInt(ns[0]) && fs[1..] == Decs(ns[1..]);
      StoiDecInt(ns[0]);
      StoiAllDecs(ns[1..]);
      IntsCons(ns);
      assert [ns[0]] + ns[1..] == ns;
    }
  }

  lemma {:induction false} IntsCons(ns: seq<int>)
    requires ns != []
    ensures Ints(ns) <==> -0x8000_0000 <= ns[0] < 0x8000_0000 && Ints(ns[1..])
  {
    if Ints(ns[1..]) {
      assert forall i :: 0 < i < |ns| ==> ns[i] == ns[1..][i - 1];
    }
  }

  /** The codec: splitting a printed line yields exactly its sixteen fields. */
  lemma {:induction false} SplitEntry(key: string, v: Value)
    requires ':' !in key
    ensures Split(PrintEntry(key, v)) == [key] + Decs(Numbers(v))
    ensures |Split(PrintEntry(key, v))| == 16
  {
    SplitOne(key, PrintNumbers(Numbers(v)));
    SplitNumbers(Numbers(v));
  }

  /** Numbers that fit are rebuilt, without the dirty bit. */
  lemma {:induction false} BuildNumbers(v: Value)
    requires Fits(v)
    ensures Build(Numbers(v)) == Clean(v)
  {
    var ns := Numbers(v);
    IntKept(v.fd);
    forall i | 2 <= i < 15
      ensures ToU32(ns[i]) == ns[i] && ToU64(ns[i]) == ns[i]
    {
      SmallKept(ns[i]);
    }
  }

  lemma {:induction false} SmallKept(n: nat)
    requires n < 0x8000_0000
    ensures ToU32(n) == n && ToU64(n) == n
  {
  }

  lemma {:induction false} IntKept(x: I32)
    ensures ToI32(x) == x
  {
  }

  /** Parsing a printed line, whatever fields follow it: the entry comes back clean, or
      some number does not fit and the process dies. */
  lemma {:induction false} ParseEntry(key: string, v: Value, more: seq<string>)
    requires ':' !in key
    ensures ParseFields(Split(PrintEntry(key, v)) + more) == if Fits(v) then Some(Line(key, Clean(v))) else None
  {
    var fs := Split(PrintEntry(key, v)) + more;
    SplitEntry(key, v);
    assert fs[1..16] == Decs(Numbers(v));
    StoiAllDecs(Numbers(v));
    if Fits(v) {
      BuildNumbers(v);
    }
  }
}
