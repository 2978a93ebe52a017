/** What the cache file's format comes to, in characters and fields. */
module CacheLaws {
  import opened Options
  import opened CacheFile
  import opened Text
  import opened TextLaws

  // ----- conversions ---------------------------------------------------------------------

  /** A conversion keeps the number up to multiples of the type's size, and keeps a number that
      fits as it is. */
  lemma {:induction false} ConversionLaw(x: int)
    ensures (ToI32(x) - x) % 0x1_0000_0000 == 0 && (-0x8000_0000 <= x <= 0x7fff_ffff <==> ToI32(x) == x)
    ensures (ToU32(x) - x) % 0x1_0000_0000 == 0 && (0 <= x <= 0xffff_ffff <==> ToU32(x) == x)
    ensures (ToU64(x) - x) % 0x1_0000_0000_0000_0000 == 0 && (0 <= x <= 0xffff_ffff_ffff_ffff <==> ToU64(x) == x)
  {
  }

  // ----- the order of the lines ------------------------------------------------------------

  /** `a` comes before `b`: it is a beginning of it, or has the smaller character at the first
      difference. */
  ghost predicate Before(a: string, b: string) {
    a != b && (a <= b || exists i :: 0 <= i < |a| && i < |b| && a[..i] == b[..i] && a[i] < b[i])
  }

  lemma {:induction false} LeqLaw(a: string, b: string)
    ensures Leq(a, b) <==> a == b || Before(a, b)
  {
    if a != "" && b != "" && a[0] == b[0] {
      LeqLaw(a[1..], b[1..]);
      BeforeTail(a, b);
      assert a == [a[0]] + a[1..] && b == [b[0]] + b[1..];
    } else if a != "" && b != "" && a[0] < b[0] {
      assert a[..0] == b[..0];
    }
  }

  lemma {:induction false} BeforeTail(a: string, b: string)
    requires a != "" && b != "" && a[0] == b[0]
    ensures Before(a, b) <==> Before(a[1..], b[1..])
  {
    var c, d := a[1..], b[1..];
    assert a == [a[0]] + c && b == [a[0]] + d;
    assert a <= b <==> c <= d;
    forall i | 0 <= i < |a| && i < |b| && a[..i] == b[..i] && a[i] < b[i]
      ensures 0 <= i - 1 < |c| && i - 1 < |d| && c[..i - 1] == d[..i - 1] && c[i - 1] < d[i - 1]
    {
      assert c[..i - 1] == a[..i][1..] && d[..i - 1] == b[..i][1..];
    }
    forall i | 0 <= i < |c| && i < |d| && c[..i] == d[..i] && c[i] < d[i]
      ensures a[..i + 1] == b[..i + 1] && a[i + 1] < b[i + 1]
    {
      assert a[..i + 1] == [a[0]] + c[..i] && b[..i + 1] == [a[0]] + d[..i];
    }
  }

  /** The text of the entries under these keys, a line each. */
  function Rows(cache: Cache, keys: seq<string>): string
    requires forall i :: 0 <= i < |keys| ==> keys[i] in cache
  {
    if keys == [] then "" else PrintEntry(keys[0], cache[keys[0]]) + "\n" + Rows(cache, keys[1..])
  }

  ghost predicate Ascending(keys: seq<string>) {
    forall i, j :: 0 <= i < j < |keys| ==> Before(keys[i], keys[j])
  }

  /** The cache file has one line for each entry, in ascending order of the paths. */
  lemma {:induction false} PrintLaw(cache: Cache) returns (keys: seq<string>)
    ensures Ascending(keys) && (forall k :: k in keys <==> k in cache)
    ensures Print(cache) == Rows(cache, keys)
  {
    keys := PrintKeysLaw(cache, cache.Keys);
  }

  lemma {:induction false} PrintKeysLaw(cache: Cache, left: set<string>) returns (keys: seq<string>)
    requires left <= cache.Keys
    ensures Ascending(keys) && (forall k :: k in keys <==> k in left)
    ensures PrintKeys(cache, left) == Rows(cache, keys)
    decreases left
  {
    keys := [];
    if left != {} {
      var k := Min(left);
      var rest := PrintKeysLaw(cache, left - {k});
      forall j | 0 <= j < |rest|
        ensures Before(k, rest[j])
      {
        assert rest[j] in rest;
        LeqLaw(k, rest[j]);
      }
      keys := [k] + rest;
      assert keys[1..] == rest;
    }
  }

  // ----- one line ------------------------------------------------------------------------------

  /** A line has the path, the dirty flag, the descriptor, and the thirteen attributes in the
      order of `struct stat`'s names in the source, each ended by a colon. */
  lemma {:induction false} EntryLaw(key: string, v: Value)
    requires ':' !in key
    ensures Split(PrintEntry(key, v)) ==
            [key, if v.dirty then "1" else "0", DecInt(v.fd), DecInt(v.info.dev), DecInt(v.info.ino), DecInt(v.info.mode),
             DecInt(v.info.nlink), DecInt(v.info.uid), DecInt(v.info.gid), DecInt(v.info.rdev), DecInt(v.info.size),
             DecInt(v.info.blksize), DecInt(v.info.blocks), DecInt(v.info.atim), DecInt(v.info.mtim), DecInt(v.info.ctim)]
    ensures Joined(Split(PrintEntry(key, v))) == PrintEntry(key, v)
  {
    hide PrintEntry, Split, Decs, DecInt, Joined, PrintNumbers;
    SplitEntry(key, v);
    FlagLaw(v);
    DecsAt(Numbers(v));
    PrintedJoined(key, v);
  }

  lemma {:induction false} FlagLaw(v: Value)
    ensures DecInt(Numbers(v)[0]) == if v.dirty then "1" else "0"
  {
  }

  lemma {:induction false} PrintedJoined(key: string, v: Value)
    ensures Joined([key] + Decs(Numbers(v))) == PrintEntry(key, v)
  {
    hide Joined, Numbers, Decs;
    JoinedSplit(key, Numbers(v));
  }

  /** Each field, with a colon behind it. */
  function Joined(fields: seq<string>): string {
    if fields == [] then "" else fields[0] + ":" + Joined(fields[1..])
  }

  lemma {:induction false} DecsAt(ns: seq<int>)
    ensures |Decs(ns)| == |ns| && forall i :: 0 <= i < |ns| ==> Decs(ns)[i] == DecInt(ns[i])
  {
    if ns != [] {
      DecsAt(ns[1..]);
    }
  }

  lemma {:induction false} JoinedDecs(ns: seq<int>)
    ensures Joined(Decs(ns)) == PrintNumbers(ns)
  {
    if ns != [] {
      JoinedDecs(ns[1..]);
      assert Decs(ns)[1..] == Decs(ns[1..]);
    }
  }

  lemma {:induction false} JoinedSplit(key: string, ns: seq<int>)
    ensures Joined([key] + Decs(ns)) == key + ":" + PrintNumbers(ns)
  {
    JoinedDecs(ns);
    assert ([key] + Decs(ns))[1..] == Decs(ns);
  }

  /** A line is an entry exactly if it has sixteen fields and `stoi` reads the last fifteen; its
      path is the first, whatever the line is. */
  lemma {:induction false} FieldsLaw(fs: seq<string>)
    ensures ParseFields(fs).Some? <==> |fs| >= 16 && forall i :: 1 <= i < 16 ==> Stoi(fs[i]).Some?
    ensures ParseFields(fs).Some? ==> ParseFields(fs).value.key == fs[0] && !ParseFields(fs).value.value.dirty
  {
    if |fs| >= 16 {
      StoiAllLaw(fs[1..16]);
      assert forall i :: 1 <= i < 16 ==> fs[1..16][i - 1] == fs[i];
    }
  }

  lemma {:induction false} StoiAllLaw(fs: seq<string>)
    ensures StoiAll(fs).Some? <==> forall i :: 0 <= i < |fs| ==> Stoi(fs[i]).Some?
    ensures StoiAll(fs).Some? ==> |StoiAll(fs).value| == |fs|
  {
    if fs != [] {
      StoiAllLaw(fs[1..]);
      assert forall i :: 0 < i < |fs| ==> fs[1..][i - 1] == fs[i];
    }
  }

  /** What ends with the last colon is a field; what follows it is not. */
  lemma {:induction false} SplitLaw(fields: seq<string>, rest: string)
    requires (forall i :: 0 <= i < |fields| ==> ':' !in fields[i]) && ':' !in rest
    ensures Split(Joined(fields) + rest) == fields
  {
    if fields == [] {
      assert "" + rest == rest;
      IndexOfFirst(rest, ':');
    } else {
      assert Joined(fields) + rest == fields[0] + ":" + (Joined(fields[1..]) + rest);
      SplitOne(fields[0], Joined(fields[1..]) + rest);
      SplitLaw(fields[1..], rest);
    }
  }

  /** `getline` returns what the newlines end, and a last line without one if there is any. */
  lemma {:induction false} LinesLaw(line: string, rest: string)
    requires '\n' !in line
    ensures Lines(line + "\n" + rest) == [line] + Lines(rest)
    ensures Lines(line) == if line == "" then [] else [line]
  {
    var file := line + "\n" + rest;
    IndexOfAt(line, '\n', rest);
    assert file[..|line|] == line && file[|line| + 1..] == rest;
    IndexOfFirst(line, '\n');
    assert line[..|line|] == line;
    assert IndexOf(line, '\n') == |line|;
  }

  /** `stoi` in characters: blanks, a sign and decimal digits are the number, if it is an `int`;
      what follows is ignored. */
  lemma {:induction false} StoiLaw(pad: string, sign: string, n: nat, junk: string)
    requires Blank(pad) && Sign(sign) && NoDigit(junk)
    ensures var x := if sign == "-" then 0 - n else n;
            Stoi(pad + sign + Dec(n) + junk) == if -0x8000_0000 <= x <= 0x7fff_ffff then Some(x) else None
  {
    AtoiLaw(pad, sign, n, junk);
  }

  /** Without digits there is no number. */
  lemma {:induction false} StoiNone(pad: string, sign: string, junk: string)
    requires Blank(pad) && Sign(sign) && NoDigit(junk)
    requires sign == "" ==> junk == "" || (junk[0] !in BLANKS && junk[0] != '+' && junk[0] != '-')
    ensures Stoi(pad + sign + junk) == None
  {
    NoNumber(pad, sign, junk);
  }
}
