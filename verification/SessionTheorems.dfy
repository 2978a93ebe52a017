/** The guarantees of the file system over whole runs, for any number of clients. */
module SessionTheorems {
  import opened Options
  import opened Posix
  import opened Chunks
  import opened Session
  import opened SessionInvariant
  import opened SessionRefinement
  import opened SessionHistory
  import S = SessionSpec

  function Labels(s: State, es: seq<Event>): (acts: seq<S.Act>)
    requires IsRun(s, es)
    ensures |acts| == |es|
    decreases |es|
  {
    if es == [] then [] else [Label(s, es[0])] + Labels(Step(s, es[0]), es[1..])
  }

  /** The user files among the names `ps` of a disk. */
  ghost function UserFiles(disk: Disk, ps: set<Path>): (store: map<Path, Bytes>)
    requires forall p :: p in ps ==> p in disk.names && disk.names[p] in disk.data
    ensures forall p :: p in store <==> p in ps && !IsTemp(p)
    ensures forall p :: p in store ==> store[p] == disk.Content(p)
    decreases ps
  {
    if ps == {} then map[]
    else
      var p :| p in ps;
      var rest := UserFiles(disk, ps - {p});
      if IsTemp(p) then rest else rest[p := disk.Content(p)]
  }

  /** What users see before anything has happened: the files on the server's disk. */
  ghost function Start(s: State): S.Spec
    requires s.disk.Valid()
  {
    S.Spec(UserFiles(s.disk, s.disk.names.Keys), seq(|s.clients|, _ => map[]), map[], map[], s.epoch,
           seq(|s.clients|, c requires 0 <= c < |s.clients| => s.clients[c].life))
  }

  lemma {:induction false} StartShown(s: State)
    requires Initial(s)
    ensures Shows(s, Start(s)) && Fresh(Start(s))
  {
    var a := Start(s);
    assert forall p :: PathShown(s.disk, a.store, p);
    forall c | 0 <= c < |s.clients|
      ensures HandlesShown(s.clients[c], a.handles[c])
    {
      assert forall p :: HandleShown(s.clients[c], a.handles[c], p);
    }
    assert forall r :: FetchShown(s, a.fetches, r) && FlushShown(s, a.flushes, r);
  }

  /** Refinement over runs: what users see of a run is a play of the specification. */
  lemma {:induction false} RunRefines(s: State, es: seq<Event>, a: S.Spec)
    requires Inv(s) && IsRun(s, es) && Shows(s, a)
    ensures S.IsPlay(a, Labels(s, es))
    ensures Shows(Run(s, es), S.Play(a, Labels(s, es)))
    ensures Inv(Run(s, es))
    decreases |es|
  {
    if es != [] {
      RefinesStep(s, es[0], a);
      InvStep(s, es[0]);
      RunRefines(Step(s, es[0]), es[1..], S.Perform(a, Label(s, es[0])));
      assert Labels(s, es)[1..] == Labels(Step(s, es[0]), es[1..]);
    }
  }

  /** Close-to-open: after any run, each server file is what the history says was closed
      last, and each handle reads its snapshot plus its own writes. */
  lemma LastCloseWins(s: State, es: seq<Event>)
    requires Initial(s) && IsRun(s, es)
    ensures var t := Run(s, es);
            var init, acts := Start(s).store, Labels(s, es);
            && t.disk.Valid()
            && (forall p :: !IsTemp(p) ==>
                  FileAt(init, acts, p) == if p in t.disk.names then Some(t.disk.Content(p)) else None)
            && |t.clients| == |s.clients|
            && (forall c, p :: 0 <= c < |t.clients| && p in t.clients[c].open ==>
                  && p in t.clients[c].cache && t.clients[c].cache[p].ino in t.clients[c].local
                  && HandleAt(init, acts, c, p) ==
                     Some(S.Copy(t.clients[c].local[t.clients[c].cache[p].ino], t.clients[c].cache[p].dirty)))
  {
    var t, a, acts := Run(s, es), Start(s), Labels(s, es);
    InvInitial(s);
    StartShown(s);
    RunRefines(s, es, a);
    HistoryExplains(a, acts);
    var b := S.Play(a, acts);
    NamesKnown(t);
    forall p | !IsTemp(p)
      ensures FileAt(a.store, acts, p) == if p in t.disk.names then Some(t.disk.Content(p)) else None
    {
      assert PathShown(t.disk, b.store, p);
      assert StoreExplained(a, b, acts, p);
    }
    forall c, p | 0 <= c < |t.clients| && p in t.clients[c].open
      ensures p in t.clients[c].cache && t.clients[c].cache[p].ino in t.clients[c].local
      ensures HandleAt(a.store, acts, c, p) ==
              Some(S.Copy(t.clients[c].local[t.clients[c].cache[p].ino], t.clients[c].cache[p].dirty))
    {
      assert HandlesShown(t.clients[c], b.handles[c]);
      assert HandleShown(t.clients[c], b.handles[c], p);
      assert HandleExplained(a, b, acts, c, p);
    }
  }

  /** Crash atomicity: whatever the interleaving and whoever crashed, a server file is one
      of the original files, an empty new one, or a piece of a single flushed copy, whole
      unless its client crashed. */
  lemma {:induction false} CrashAtomicity(s: State, es: seq<Event>, p: Path)
    requires Initial(s) && IsRun(s, es) && !IsTemp(p) && p in Run(s, es).disk.names
    ensures Run(s, es).disk.names[p] in Run(s, es).disk.data
    ensures Sourced(Start(s).store, Labels(s, es), Run(s, es).disk.Content(p))
  {
    var t, a, acts := Run(s, es), Start(s), Labels(s, es);
    InvInitial(s);
    StartShown(s);
    RunRefines(s, es, a);
    var b := S.Play(a, acts);
    assert PathShown(t.disk, b.store, p);
    Provenance(a, acts, p);
  }

  lemma {:induction false} RunConcat(s: State, x: seq<Event>, y: seq<Event>)
    ensures IsRun(s, x + y) <==> IsRun(s, x) && IsRun(Run(s, x), y)
    ensures IsRun(s, x + y) ==> Run(s, x + y) == Run(Run(s, x), y)
    decreases |x|
  {
    if x == [] {
      assert x + y == y;
    } else {
      assert (x + y)[0] == x[0] && (x + y)[1..] == x[1..] + y;
      if Fair(s, x[0]) {
        RunConcat(Step(s, x[0]), x[1..], y);
      }
    }
  }

  /** No torn reads: a download that ran while anything else happened delivers one whole
      version of the file, the one bound to the path when the server opened it; if the
      server went down meanwhile, it delivers a piece of that version. */
  lemma NoTornRead(s: State, mid: seq<Event>, c: nat, p: Path, r: Rid)
    requires Inv(s) && IsRun(s, [OpenBegin(c, p, r)] + mid + [OpenEnd(r)])
    requires forall i :: 0 <= i < |mid| ==> mid[i] != OpenEnd(r) && !(mid[i].ClientCrash? && mid[i].c == c)
    ensures p in s.disk.names && s.disk.names[p] in s.disk.data
    ensures var t, f := Run(s, [OpenBegin(c, p, r)] + mid + [OpenEnd(r)]), s.disk.Content(p);
            && c < |t.clients|
            && (p in t.clients[c].open ==>
                  && p in t.clients[c].cache && t.clients[c].cache[p].ino in t.clients[c].local
                  && var copy := t.clients[c].local[t.clients[c].cache[p].ino];
                     |copy| <= |f| && copy == f[..|copy|] && Boundary(|copy|, |f|))
            && (ServerCrash !in mid ==>
                  && p in t.clients[c].open
                  && t.clients[c].local[t.clients[c].cache[p].ino] == f)
  {
    var e0 := OpenBegin(c, p, r);
    var es := [e0] + mid + [OpenEnd(r)];
    assert es[0] == e0 && es[1..] == mid + [OpenEnd(r)];
    var s1 := Step(s, e0);
    InvStep(s, e0);
    RunConcat(s1, mid, [OpenEnd(r)]);
    var s2 := Run(s1, mid);
    InvRun(s1, mid);
    assert Run(s, es) == Run(s2, [OpenEnd(r)]) == Step(s2, OpenEnd(r));
    DownloadKept(s1, mid, r, c);
    var d := s2.calls[r];
    assert CallOk(s2, r, d);
    assert ClientOk(s2, c);
    InTransitOffset(s2.disk.data[d.ino], Arrived(s2, d), d.chan, d.off);
  }

  /** While a download runs, its inode is frozen. */
  lemma DownloadKept(s: State, es: seq<Event>, r: Rid, c: nat)
    requires Inv(s) && IsRun(s, es) && Downloads(s, r) && Attached(s, s.calls[r]) && s.calls[r].client == c
    requires forall i :: 0 <= i < |es| ==> es[i] != OpenEnd(r) && !(es[i].ClientCrash? && es[i].c == c)
    ensures var t := Run(s, es);
            && r in t.calls && t.calls[r].Download?
            && t.calls[r].client == c && Attached(t, t.calls[r]) && t.calls[r].path == s.calls[r].path
            && s.calls[r].ino in s.disk.data && t.calls[r].ino in t.disk.data
            && t.disk.data[t.calls[r].ino] == s.disk.data[s.calls[r].ino]
            && (Served(s, s.calls[r]) && ServerCrash !in es ==> Served(t, t.calls[r]))
    decreases |es|
  {
    assert CallOk(s, r, s.calls[r]);
    if es != [] {
      var t := Step(s, es[0]);
      InvStep(s, es[0]);
      DownloadStep(s, es[0], r);
      assert forall i :: 0 <= i < |es[1..]| ==> es[1..][i] == es[i + 1];
      DownloadKept(t, es[1..], r, c);
    }
  }

  lemma {:induction false} DownloadStep(s: State, e: Event, r: Rid)
    requires Inv(s) && Fair(s, e) && Downloads(s, r) && Attached(s, s.calls[r])
    requires e != OpenEnd(r) && !(e.ClientCrash? && e.c == s.calls[r].client)
    ensures var t := Step(s, e);
            && r in t.calls && t.calls[r].Download?
            && t.calls[r].client == s.calls[r].client && Attached(t, t.calls[r]) && t.calls[r].path == s.calls[r].path
            && t.calls[r].ino == s.calls[r].ino
            && s.calls[r].ino in s.disk.data && s.calls[r].ino in t.disk.data
            && t.disk.data[s.calls[r].ino] == s.disk.data[s.calls[r].ino]
            && (Served(s, s.calls[r]) && e != ServerCrash ==> Served(t, t.calls[r]))
  {
    hide Inv;
    DownloadKnown(s, r);
    if e.TempOpen? || e.TempWrite? {
      TempStepUnseen(s, e, s.calls[r].ino);
    } else if !e.ClientCrash? {
      DownloadElse(s, e, r);
    }
  }

  lemma {:induction false} DownloadKnown(s: State, r: Rid)
    requires Inv(s) && Downloads(s, r) && Attached(s, s.calls[r])
    ensures s.calls[r].ino in s.disk.data
  {
    assert CallOk(s, r, s.calls[r]);
  }

  lemma {:induction false} DownloadElse(s: State, e: Event, r: Rid)
    requires Fair(s, e) && !e.TempOpen? && !e.TempWrite? && !e.ClientCrash? && e != OpenEnd(r)
    requires Downloads(s, r) && s.calls[r].ino in s.disk.data
    ensures var t := Step(s, e);
            && r in t.calls && t.calls[r].Download?
            && t.calls[r].client == s.calls[r].client && t.calls[r].life == s.calls[r].life
            && t.calls[r].epoch == s.calls[r].epoch && t.calls[r].path == s.calls[r].path
            && t.calls[r].ino == s.calls[r].ino
            && s.calls[r].ino in t.disk.data && t.disk.data[s.calls[r].ino] == s.disk.data[s.calls[r].ino]
  {
  }

  /** The two steps that write to the server's disk in place leave what is read alone. */
  lemma TempStepUnseen(s: State, e: Event, i: Ino)
    requires Inv(s) && Fair(s, e) && (e.TempOpen? || e.TempWrite?) && i in s.disk.data
    requires exists x :: Downloads(s, x) && Attached(s, s.calls[x]) && s.calls[x].ino == i
    ensures i in Step(s, e).disk.data && Step(s, e).disk.data[i] == s.disk.data[i]
  {
    var name := Temp(s.calls[e.r].path);
    if e.TempWrite? {
      assert CallOk(s, e.r, s.calls[e.r]);
    }
    if name in s.disk.names {
      assert Claims(s, name, s.disk.names[name]);
      TempUnseen(s, name, s.disk.names[name]);
    }
  }

  /** Dirty exactness: an idle client contacts the server for a handle exactly when it has
      written through it since the open or the creation. */
  lemma {:induction false} FlushContactsIff(s: State, es: seq<Event>, c: nat, p: Path, r: Rid)
    requires Initial(s) && IsRun(s, es)
    requires c < |Run(s, es).clients| && p in Run(s, es).clients[c].open
    requires Run(s, es).clients[c].busy.None? && r !in Run(s, es).calls
    ensures Fair(Run(s, es), FlushBegin(c, p, r)) <==> WrittenSince(Start(s).store, Labels(s, es), c, p)
  {
    LastCloseWins(s, es);
    DirtyIffWritten(Start(s).store, Labels(s, es), c, p);
  }

  /** In every reachable state two cached paths of a client name different local files. */
  lemma {:induction false} NoAliasing(s: State, es: seq<Event>, c: nat, p: Path, q: Path)
    requires Initial(s) && IsRun(s, es) && c < |Run(s, es).clients| && p != q
    requires p in Run(s, es).clients[c].cache && q in Run(s, es).clients[c].cache
    ensures Run(s, es).clients[c].cache[p].ino != Run(s, es).clients[c].cache[q].ino
  {
    InvInitial(s);
    InvRun(s, es);
    LocalFilesApart(Run(s, es), c, p, q);
  }

  // ----- transfers can always complete ----------------------------------------------------

  lemma {:induction false} RunCons(s: State, e: Event, es: seq<Event>)
    requires Fair(s, e) && IsRun(Step(s, e), es)
    ensures IsRun(s, [e] + es) && Run(s, [e] + es) == Run(Step(s, e), es)
  {
    assert ([e] + es)[1..] == es;
  }

  lemma {:induction false} UnusedAbove(inos: set<Ino>) returns (i: Ino)
    ensures forall j :: j in inos ==> j < i
    decreases inos
  {
    if inos == {} {
      i := 0;
    } else {
      var j :| j in inos;
      var m := UnusedAbove(inos - {j});
      i := if m <= j then j + 1 else m;
      assert forall k :: k in inos ==> k == j || k in inos - {j};
    }
  }

  lemma {:induction false} CommitNow(s: State, r: Rid)
    requires Inv(s) && Fair(s, Commit(r)) && Attached(s, s.calls[r])
    ensures IsRun(s, [Commit(r)])
    ensures var t, p := Run(s, [Commit(r)]), s.calls[r].path;
            p in t.disk.names && t.disk.names[p] in t.disk.data && t.disk.Content(p) == s.calls[r].copy
  {
    CommitExact(s, r);
    RunCons(s, Commit(r), []);
  }

  /** From any reachable state, a flush of a non-empty copy that nobody overlaps can run to
      its commit, and then the server holds the whole copy. */
  lemma {:induction false} FlushCanFinish(s: State, r: Rid) returns (es: seq<Event>)
    requires Inv(s) && r in s.calls && Unsettled(s.calls[r]) && s.calls[r].copy != []
    requires Attached(s, s.calls[r]) && Served(s, s.calls[r])
    requires s.calls[r].phase.Waiting? ==> NoLiveUpload(s, s.calls[r].path)
    ensures IsRun(s, es)
    ensures s.calls[r].path in Run(s, es).disk.names && Run(s, es).disk.names[s.calls[r].path] in Run(s, es).disk.data
    ensures Run(s, es).disk.Content(s.calls[r].path) == s.calls[r].copy
    decreases !s.calls[r].done, |s.calls[r].copy| - s.calls[r].sent, s.calls[r].phase.Waiting?, |s.calls[r].chan|
  {
    var u := s.calls[r];
    assert CallOk(s, r, u);
    InTransitOffset(u.copy, Got(u), u.chan, u.sent);
    var e: Event;
    if !u.done {
      e := ClientSend(r);
      UploadTurnOk(u.copy, Got(u), u.chan, u.sent);
    } else if u.phase.Waiting? {
      var i := UnusedAbove(s.disk.data.Keys);
      e := TempOpen(r, i);
    } else if u.chan != [] {
      e := TempWrite(r);
    } else {
      CommitNow(s, r);
      return [Commit(r)];
    }
    InvStep(s, e);
    var rest := FlushCanFinish(Step(s, e), r);
    RunCons(s, e, rest);
    es := [e] + rest;
  }

  /** From any reachable state, a download from a living server can run to its end, and
      then the handle shows the whole file it was opened on. */
  lemma {:induction false} OpenCanFinish(s: State, r: Rid) returns (es: seq<Event>)
    requires Inv(s) && Downloads(s, r) && Attached(s, s.calls[r]) && Served(s, s.calls[r])
    ensures IsRun(s, es)
    ensures var c, p, k := s.calls[r].client, s.calls[r].path, Run(s, es).clients;
            && c < |k| && p in k[c].open && p in k[c].cache && k[c].cache[p].ino in k[c].local
            && s.calls[r].ino in s.disk.data
            && k[c].local[k[c].cache[p].ino] == s.disk.data[s.calls[r].ino]
    decreases !s.calls[r].stopped, if s.calls[r].ino in s.disk.data then |s.disk.data[s.calls[r].ino]| - s.calls[r].off else 0, |s.calls[r].chan|
  {
    var d := s.calls[r];
    assert CallOk(s, r, d);
    assert ClientOk(s, d.client);
    var f := s.disk.data[d.ino];
    InTransitOffset(f, Arrived(s, d), d.chan, d.off);
    var e: Event;
    if !d.stopped {
      e := ServerSend(r);
      DownloadTurnOk(f, Arrived(s, d), d.chan, d.sz, d.off);
    } else if d.chan != [] {
      e := ClientReceive(r);
    } else {
      RunCons(s, OpenEnd(r), []);
      return [OpenEnd(r)];
    }
    InvStep(s, e);
    var rest := OpenCanFinish(Step(s, e), r);
    RunCons(s, e, rest);
    es := [e] + rest;
  }

  // ----- what the assumptions are for -------------------------------------------------------

  /** Each upload's temp file holds what that upload has received, and is its own. */
  ghost predicate OwnTemps(s: State) {
    && (forall x :: Uploads(s, x) && Served(s, s.calls[x]) ==> TempOk(s.disk, s.calls[x]))
    && (forall x, y :: x in s.calls && y in s.calls && x != y && WritesTo(s, s.calls[x]).Some? ==>
          WritesTo(s, s.calls[x]) != WritesTo(s, s.calls[y]))
  }

  function WritesTo(s: State, k: Call): Option<Ino> {
    if k.Upload? && Served(s, k) && k.phase.Writing? then Some(k.phase.tmp) else None
  }

  /** Because the temp name is shared, opening it is harmless exactly when no other upload
      to the path is live. */
  lemma {:induction false} TempOpenHarmlessIff(s: State, r: Rid, unused: Ino)
    requires Inv(s) && Enabled(s, TempOpen(r, unused))
    ensures OwnTemps(Step(s, TempOpen(r, unused))) <==> NoLiveUpload(s, s.calls[r].path)
  {
    var e := TempOpen(r, unused);
    var t := Step(s, e);
    var p := s.calls[r].path;
    if NoLiveUpload(s, p) {
      InvStep(s, e);
      OwnTempsKept(t);
    } else {
      var x :| x in s.calls && Live(s, s.calls[x]) && s.calls[x].path == p;
      assert CallOk(s, x, s.calls[x]);
      assert t.calls[x] == s.calls[x];
      if s.calls[x].phase.Writing? {
        assert WritesTo(t, t.calls[x]) == WritesTo(t, t.calls[r]);
      } else {
        assert !TempOk(t.disk, t.calls[x]);
      }
    }
  }

  lemma {:induction false} OwnTempsKept(t: State)
    requires Inv(t)
    ensures OwnTemps(t)
  {
    forall x | Uploads(t, x) && Served(t, t.calls[x])
      ensures TempOk(t.disk, t.calls[x])
    {
      assert CallOk(t, x, t.calls[x]);
    }
    forall x, y | x in t.calls && y in t.calls && x != y && WritesTo(t, t.calls[x]).Some?
      ensures WritesTo(t, t.calls[x]) != WritesTo(t, t.calls[y])
    {
      var u, v := t.calls[x], t.calls[y];
      if WritesTo(t, u) == WritesTo(t, v) {
        assert CallOk(t, x, u) && CallOk(t, y, v);
        assert Claims(t, Temp(u.path), u.phase.tmp) && Claims(t, Temp(v.path), v.phase.tmp);
        TempInjective(u.path, v.path);
        assert Live(t, u) && Live(t, v);
      }
    }
  }

  /** And when it is not: the upload that came first then commits an emptied file. */
  lemma {:induction false} OverlapTears(s: State, x: Rid, r: Rid, unused: Ino)
    requires Inv(s) && x in s.calls && x != r && Enabled(s, Commit(x)) && Enabled(s, TempOpen(r, unused))
    requires s.calls[x].path == s.calls[r].path
    ensures var t := Step(s, TempOpen(r, unused));
            && Enabled(t, Commit(x))
            && s.calls[x].path in Step(t, Commit(x)).disk.names
            && Step(t, Commit(x)).disk.names[s.calls[x].path] in Step(t, Commit(x)).disk.data
            && Step(t, Commit(x)).disk.Content(s.calls[x].path) == []
            && Got(s.calls[x]) != []
  {
    assert CallOk(s, x, s.calls[x]);
  }
}
