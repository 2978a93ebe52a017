/** What becomes of a session when something that the code relies on does not hold. */
module SessionMisuse {
  import opened Options
  import opened Posix
  import opened Chunks
  import opened Session
  import opened SessionInvariant
  import opened SessionRefinement
  import opened SessionTheorems
  import opened SessionHistory

  // ----- a second open of an open path ------------------------------------------------------

  /** What client `c` reads through its cache entry for `p`, and whether a flush would send it. */
  function Shown(k: Client, p: Path): (Option<Bytes>, bool) {
    if p in k.cache then (if k.cache[p].ino in k.local then Some(k.local[k.cache[p].ino]) else None, k.cache[p].dirty)
    else (None, false)
  }

  /** The steps can happen, whether or not the assumptions are met. */
  predicate Happens(s: State, es: seq<Event>)
    decreases |es|
  {
    es == [] || (Enabled(s, es[0]) && Happens(Step(s, es[0]), es[1..]))
  }

  function Afterwards(s: State, es: seq<Event>): State
    requires Happens(s, es)
    decreases |es|
  {
    if es == [] then s else Afterwards(Step(s, es[0]), es[1..])
  }

  /** A download of `f` under way, on a path that may be open. */
  ghost predicate Reopening(s: State, c: nat, p: Path, r: Rid, f: Bytes) {
    && Downloads(s, r) && Attached(s, s.calls[r]) && Served(s, s.calls[r])
    && var d := s.calls[r];
       && d.client == c && d.path == p && d.ino in s.disk.data && s.disk.data[d.ino] == f
       && InTransit(f, Arrived(s, d), d.chan, d.off) && SizeOk(d, |f|)
       && (d.count > 0 ==> p in s.clients[c].cache && s.clients[c].cache[p] == Entry(d.ino, false) && d.ino in s.clients[c].local)
  }

  lemma {:induction false} ReopenBegins(s: State, c: nat, p: Path, r: Rid)
    requires Inv(s) && Enabled(s, OpenBegin(c, p, r))
    ensures Reopening(Step(s, OpenBegin(c, p, r)), c, p, r, s.disk.Content(p))
  {
  }

  lemma {:induction false} ReopenSends(s: State, c: nat, p: Path, r: Rid, f: Bytes)
    requires Reopening(s, c, p, r, f) && Enabled(s, ServerSend(r))
    ensures Reopening(Step(s, ServerSend(r)), c, p, r, f)
  {
    var d := s.calls[r];
    InTransitOffset(f, Arrived(s, d), d.chan, d.off);
    DownloadTurnOk(f, Arrived(s, d), d.chan, d.sz, d.off);
  }

  lemma {:induction false} ReopenReceives(s: State, c: nat, p: Path, r: Rid, f: Bytes)
    requires Reopening(s, c, p, r, f) && Enabled(s, ClientReceive(r))
    ensures Reopening(Step(s, ClientReceive(r)), c, p, r, f)
  {
    var d := s.calls[r];
    WriteAtEnd(Arrived(s, d), d.chan[0]);
  }

  lemma {:induction false} ReopenEnds(s: State, c: nat, p: Path, r: Rid, f: Bytes)
    requires Reopening(s, c, p, r, f) && Enabled(s, OpenEnd(r))
    ensures c < |Step(s, OpenEnd(r)).clients| && Shown(Step(s, OpenEnd(r)).clients[c], p) == (Some(f), false)
    ensures Step(s, OpenEnd(r)).clients[c].busy == None && Step(s, OpenEnd(r)).calls == s.calls - {r}
  {
    assert f[..|f|] == f;
  }

  /** The steps of the download `r` itself, up to its end. */
  predicate OwnSteps(es: seq<Event>, r: Rid) {
    forall i :: 0 <= i < |es| ==> es[i] == ServerSend(r) || es[i] == ClientReceive(r)
  }

  lemma {:induction false} ReopenOwn(s: State, e: Event, c: nat, p: Path, r: Rid, f: Bytes)
    requires Reopening(s, c, p, r, f) && Enabled(s, e) && (e == ServerSend(r) || e == ClientReceive(r))
    ensures Reopening(Step(s, e), c, p, r, f) && Step(s, e).calls.Keys == s.calls.Keys
  {
    if e == ServerSend(r) {
      ReopenSends(s, c, p, r, f);
    } else {
      ReopenReceives(s, c, p, r, f);
    }
  }

  lemma {:induction false} ReopenRuns(s: State, es: seq<Event>, c: nat, p: Path, r: Rid, f: Bytes)
    requires Reopening(s, c, p, r, f) && OwnSteps(es, r) && Happens(s, es + [OpenEnd(r)])
    ensures var t := Afterwards(s, es + [OpenEnd(r)]);
            && c < |t.clients| && Shown(t.clients[c], p) == (Some(f), false) && t.clients[c].busy == None
            && t.calls.Keys == s.calls.Keys - {r}
    decreases |es|
  {
    var all := es + [OpenEnd(r)];
    if es == [] {
      assert all == [OpenEnd(r)];
      ReopenEnds(s, c, p, r, f);
      assert Afterwards(s, all) == Step(s, OpenEnd(r));
    } else {
      assert all[0] == es[0] && all[1..] == es[1..] + [OpenEnd(r)];
      assert forall i :: 0 <= i < |es[1..]| ==> es[1..][i] == es[i + 1];
      ReopenOwn(s, es[0], c, p, r, f);
      ReopenRuns(Step(s, es[0]), es[1..], c, p, r, f);
    }
  }

  lemma {:induction false} HappensCons(s: State, e: Event, es: seq<Event>)
    requires Enabled(s, e) && Happens(Step(s, e), es)
    ensures Happens(s, [e] + es)
  {
    assert ([e] + es)[1..] == es;
  }

  /** Until its end, the download has a next step. */
  lemma {:induction false} ReopenNext(s: State, c: nat, p: Path, r: Rid, f: Bytes) returns (e: Event)
    requires Reopening(s, c, p, r, f) && !(s.calls[r].stopped && s.calls[r].chan == [])
    ensures e == if s.calls[r].stopped then ClientReceive(r) else ServerSend(r)
    ensures Enabled(s, e) && Reopening(Step(s, e), c, p, r, f)
    ensures var d, t := s.calls[r], Step(s, e).calls[r];
            && d.off <= |f| && t.off <= |f|
            && if d.stopped then t.stopped && t.off == d.off && |t.chan| < |d.chan| else t.stopped || t.off > d.off
  {
    var d := s.calls[r];
    InTransitOffset(f, Arrived(s, d), d.chan, d.off);
    if d.stopped {
      e := ClientReceive(r);
      ReopenReceives(s, c, p, r, f);
    } else {
      e := ServerSend(r);
      DownloadTurnOk(f, Arrived(s, d), d.chan, d.sz, d.off);
      ReopenSends(s, c, p, r, f);
    }
  }

  /** And the download can always run to its end. */
  lemma {:induction false} ReopenCanFinish(s: State, c: nat, p: Path, r: Rid, f: Bytes) returns (es: seq<Event>)
    requires Reopening(s, c, p, r, f)
    ensures OwnSteps(es, r) && Happens(s, es + [OpenEnd(r)])
    decreases !s.calls[r].stopped, |f| - s.calls[r].off, |s.calls[r].chan|
  {
    if s.calls[r].stopped && s.calls[r].chan == [] {
      es := [];
      HappensCons(s, OpenEnd(r), []);
      assert [OpenEnd(r)] + [] == [] + [OpenEnd(r)];
    } else {
      var e := ReopenNext(s, c, p, r, f);
      var rest := ReopenCanFinish(Step(s, e), c, p, r, f);
      es := [e] + rest;
      HappensCons(s, e, rest + [OpenEnd(r)]);
      assert [e] + (rest + [OpenEnd(r)]) == es + [OpenEnd(r)];
    }
  }

  /** A second open of an open path, however its messages interleave, leaves the handle with the
      server's file and no dirty bit.  A flush that the handle owed before is still owed after it
      if and only if it owed none: its dirty bit was clear. */
  lemma {:induction false} ReopenHarmlessIff(s: State, es: seq<Event>, c: nat, p: Path, r: Rid, x: Rid)
    requires Inv(s) && Enabled(s, OpenBegin(c, p, r)) && p in s.clients[c].open && x !in s.calls
    requires OwnSteps(es, r) && Happens(Step(s, OpenBegin(c, p, r)), es + [OpenEnd(r)])
    ensures var t := Afterwards(Step(s, OpenBegin(c, p, r)), es + [OpenEnd(r)]);
            && c < |t.clients| && Shown(t.clients[c], p) == (Some(s.disk.Content(p)), false)
            && p in s.clients[c].cache
            && ((Enabled(s, FlushBegin(c, p, x)) ==> Enabled(t, FlushBegin(c, p, x))) <==> !s.clients[c].cache[p].dirty)
  {
    assert ClientOk(s, c);
    ReopenBegins(s, c, p, r);
    ReopenRuns(Step(s, OpenBegin(c, p, r)), es, c, p, r, s.disk.Content(p));
  }

  /** In a reachable state, so: the second open loses a flush if and only if the client has
      written through the handle since it opened or created the file. */
  lemma {:induction false} ReopenLosesIff(s: State, run: seq<Event>, es: seq<Event>, c: nat, p: Path, r: Rid, x: Rid)
    requires Initial(s) && IsRun(s, run)
    requires var m := Run(s, run);
             && Enabled(m, OpenBegin(c, p, r)) && p in m.clients[c].open && x !in m.calls
             && OwnSteps(es, r) && Happens(Step(m, OpenBegin(c, p, r)), es + [OpenEnd(r)])
    ensures var m := Run(s, run);
            var t := Afterwards(Step(m, OpenBegin(c, p, r)), es + [OpenEnd(r)]);
            Enabled(m, FlushBegin(c, p, x)) && !Enabled(t, FlushBegin(c, p, x)) <==>
            WrittenSince(Start(s).store, Labels(s, run), c, p)
  {
    var m := Run(s, run);
    InvInitial(s);
    InvRun(s, run);
    ReopenHarmlessIff(m, es, c, p, r, x);
    FlushContactsIff(s, run, c, p, x);
  }

  // ----- a write during a flush ---------------------------------------------------------------

  /** What the client's loop still sends from offset `off` of a file `g` that was `size` long
      when it was opened. */
  function StillSent(g: Bytes, size: nat, off: nat): Bytes
    requires off <= |g|
    decreases |g| - off
  {
    var m := UploadTurn(g, size, off);
    if m == [] then [] else m + StillSent(g, size, off + |m|)
  }

  lemma {:induction false} StillSentIsRest(g: Bytes, size: nat, off: nat)
    requires off <= |g| && 0 < size
    ensures StillSent(g, size, off) == g[off..]
    decreases |g| - off
  {
    var m := UploadTurn(g, size, off);
    if off < |g| {
      StillSentIsRest(g, size, off + |m|);
      assert g[off..] == m + g[off + |m|..];
    }
  }

  /** What the upload `u` sends in all: what it has sent of its copy, and what it will read of
      the local file. */
  function Total(s: State, u: Call): Bytes
    requires u.Upload? && Attached(s, u) && u.source in s.clients[u.client].local
    requires u.sent <= |u.copy| && u.sent <= |s.clients[u.client].local[u.source]|
  {
    u.copy[..u.sent] + StillSent(s.clients[u.client].local[u.source], u.size, u.sent)
  }

  /** A write through the handle while it is being flushed: the flush sends the old bytes up to
      the next byte to be sent, and the new ones from there.  It sends neither the file as it was
      nor the file as it is, but a mixture, if and only if the write changes bytes on both sides;
      and it still sends its copy if and only if the write leaves alone everything from there. */
  lemma {:induction false} WriteDuringFlushIff(s: State, c: nat, p: Path, off: nat, data: Bytes, r: Rid)
    requires Inv(s) && Enabled(s, LocalWrite(c, p, off, data))
    requires Uploads(s, r) && Attached(s, s.calls[r]) && s.calls[r].client == c && s.calls[r].path == p
    requires !s.calls[r].done && s.calls[r].copy != []
    ensures var t, u := Step(s, LocalWrite(c, p, off, data)), s.calls[r];
            && u.sent <= |u.copy|
            && t.calls[r] == u && Attached(t, u) && u.source in t.clients[c].local
            && var g := WriteAt(u.copy, off, data);
               && t.clients[c].local[u.source] == g && u.sent <= |g|
               && Total(t, u) == u.copy[..u.sent] + g[u.sent..]
               && (Total(t, u) == u.copy <==> g[u.sent..] == u.copy[u.sent..])
               && (Total(t, u) != u.copy && Total(t, u) != g <==>
                   g[u.sent..] != u.copy[u.sent..] && g[..u.sent] != u.copy[..u.sent])
  {
    var u := s.calls[r];
    assert CallOk(s, r, u);
    assert SourceOk(s.clients[c], r, u);
    var g := WriteAt(u.copy, off, data);
    GrowsOnly(u.copy, off, data);
    StillSentIsRest(g, u.size, u.sent);
    SameTail(u.copy, g, u.sent);
    SameHead(u.copy, g, u.sent);
  }

  lemma {:induction false} GrowsOnly(f: Bytes, off: nat, data: Bytes)
    ensures |WriteAt(f, off, data)| >= |f|
  {
    if data != [] && |f| > 0 {
      var k := 0;
      assert |WriteAt(f, off, data)| > 0;
      WriteAtByte(f, off, data, k);
    }
  }

  lemma {:induction false} SameHead(f: Bytes, g: Bytes, k: nat)
    requires k <= |f| && k <= |g|
    ensures f[..k] + g[k..] == g <==> f[..k] == g[..k]
  {
    assert g == g[..k] + g[k..];
    if f[..k] + g[k..] == g {
      assert (f[..k] + g[k..])[..k] == f[..k];
    }
  }

  lemma {:induction false} SameTail(f: Bytes, g: Bytes, k: nat)
    requires k <= |f| && k <= |g|
    ensures f[..k] + g[k..] == f <==> g[k..] == f[k..]
  {
    assert f == f[..k] + f[k..];
    if f[..k] + g[k..] == f {
      assert (f[..k] + g[k..])[k..] == g[k..];
    }
  }

  // ----- two uploads to one path ----------------------------------------------------------------

  /** Client `c` in the middle of its flush `r` of the one byte `b`, which it wrote to `a`. */
  function Writer(b: Byte, r: Rid): Client {
    Client(map["a" := Entry(0, true)], map[0 := [b]], {"a"}, Some(r), 0)
  }

  function Idle(): Client {
    Client(map[], map[], {}, None, 0)
  }

  /** The server has no file, and two clients wait. */
  function TwoClients(): State {
    State(Disk(map[], map[]), 0, [Idle(), Idle()], map[])
  }

  /** The upload of `a` by client `c`, with one message under way. */
  function OneByte(c: nat, b: Byte, done: bool): Call {
    Upload(c, 0, 0, "a", 0, 1, 1, done, [[b]], Waiting, [b])
  }

  const CREATED: Disk := Disk(map["a" := 0], map[0 := []])

  lemma {:induction false} Extend(s: State, es: seq<Event>, e: Event)
    requires IsRun(s, es) && Fair(Run(s, es), e)
    ensures IsRun(s, es + [e]) && Run(s, es + [e]) == Step(Run(s, es), e)
  {
    RunCons(Run(s, es), e, []);
    RunConcat(s, es, [e]);
  }

  lemma {:induction false} Two(s: State, e: Event, t: State, f: Event, u: State)
    requires Fair(s, e) && t == Step(s, e) && Fair(t, f) && u == Step(t, f)
    ensures IsRun(s, [e, f]) && Run(s, [e, f]) == u
  {
    RunCons(t, f, []);
    RunCons(s, e, [f]);
    assert [e] + [f] == [e, f];
  }

  lemma {:induction false} ByteMoves(b: Byte)
    ensures WriteAt([], 0, [b]) == [b] && UploadTurn([b], 1, 0) == [b] && UploadTurn([b], 1, 1) == []
  {
    assert Resize([], 0) + [b] + [] == [b];
    assert [b][0..1] == [b];
  }

  /** The first client creates `a` and writes it. */
  lemma {:induction false} FirstWrites() returns (es: seq<Event>)
    ensures IsRun(TwoClients(), es) && Run(TwoClients(), es) == Written()
  {
    var s := TwoClients();
    var e1, e2 := CreateFile(0, "a", 0), LocalWrite(0, "a", 0, [7]);
    var s1 := Step(s, e1);
    assert s1.disk.names == map["a" := 0] && s1.disk.data == map[0 := []];
    assert s1.clients[0].cache == map["a" := Entry(0, false)] && s1.clients[0].local == map[0 := []] && s1.clients[0].open == {"a"};
    assert s1.clients[1] == Idle() && |s1.clients| == 2 && s1.calls == map[];
    ByteMoves(7);
    var s2 := Step(s1, e2);
    assert s2.clients[0].cache == map["a" := Entry(0, true)] && s2.clients[0].local == map[0 := [7]];
    assert s2.clients == Written().clients;
    Two(s, e1, s1, e2, s2);
    es := [e1, e2];
  }

  function Written(): State {
    State(CREATED, 0, [Writer(7, 0).(busy := None), Idle()], map[])
  }

  /** A client creates and writes a file and then opens it again before closing it: its byte is
      gone, and no flush will ever send it. */
  lemma {:induction false} ReopenLoses() returns (run: seq<Event>, es: seq<Event>)
    ensures Initial(TwoClients()) && IsRun(TwoClients(), run) && Run(TwoClients(), run) == Written()
    ensures Shown(Written().clients[0], "a") == (Some([7]), true)
    ensures Enabled(Written(), OpenBegin(0, "a", 0)) && Happens(Step(Written(), OpenBegin(0, "a", 0)), es + [OpenEnd(0)])
    ensures var t := Afterwards(Step(Written(), OpenBegin(0, "a", 0)), es + [OpenEnd(0)]);
            0 < |t.clients| && Shown(t.clients[0], "a") == (Some([]), false)
  {
    run := FirstWrites();
    InvInitial(TwoClients());
    InvRun(TwoClients(), run);
    ReopenBegins(Written(), 0, "a", 0);
    es := ReopenCanFinish(Step(Written(), OpenBegin(0, "a", 0)), 0, "a", 0, []);
    ReopenRuns(Step(Written(), OpenBegin(0, "a", 0)), es, 0, "a", 0, []);
  }

  /** And sends it. */
  lemma {:induction false} FirstSends() returns (es: seq<Event>)
    ensures IsRun(Written(), es) && Run(Written(), es) == AfterFirst()
  {
    var s := Written();
    var e1, e2 := FlushBegin(0, "a", 0), ClientSend(0);
    ByteMoves(7);
    var s1 := Step(s, e1);
    assert s1.clients == AfterFirst().clients;
    assert s1.calls == map[0 := Upload(0, 0, 0, "a", 0, 1, 0, false, [], Waiting, [7])];
    var s2 := Step(s1, e2);
    assert s2.calls[0].chan == [[7]];
    assert s2.calls == map[0 := OneByte(0, 7, false)];
    var s3 := Step(s2, e2);
    assert s3.calls == map[0 := OneByte(0, 7, true)];
    Two(s, e1, s1, e2, s2);
    Extend(s, [e1, e2], e2);
    es := [e1, e2] + [e2];
  }

  /** The second client opens `a`, all before the server has begun with what the first one
      sent. */
  lemma {:induction false} SecondAsks() returns (es: seq<Event>)
    ensures IsRun(AfterFirst(), es) && Run(AfterFirst(), es) == Answered()
  {
    var s := AfterFirst();
    var e1, e2 := OpenBegin(1, "a", 1), ServerSend(1);
    var first := OneByte(0, 7, true);
    var s1 := Step(s, e1);
    assert s1.calls == map[0 := first, 1 := Download(1, 0, 0, "a", 0, 0, 0, false, [], 0)];
    assert s1.clients == Answered().clients;
    var s2 := Step(s1, e2);
    assert s2.calls[1].chan == [[]];
    assert s2.calls == Answered().calls;
    Two(s, e1, s1, e2, s2);
    es := [e1, e2];
  }

  function Answered(): State {
    State(CREATED, 0, [Writer(7, 0), Client(map[], map[], {}, Some(1), 0)],
          map[0 := OneByte(0, 7, true), 1 := Download(1, 0, 0, "a", 0, 0, 0, true, [[]], 0)])
  }

  lemma {:induction false} SecondOpens() returns (es: seq<Event>)
    ensures IsRun(Answered(), es) && Run(Answered(), es) == SecondOpen()
  {
    var s := Answered();
    var e1, e2 := ClientReceive(1), OpenEnd(1);
    var first := OneByte(0, 7, true);
    var s1 := Step(s, e1);
    assert s1.clients[1].cache == map["a" := Entry(0, false)] && s1.clients[1].local == map[0 := []];
    assert s1.calls[1].chan == [];
    assert s1.calls == map[0 := first, 1 := Download(1, 0, 0, "a", 0, 0, 0, true, [], 1)];
    var s2 := Step(s1, e2);
    assert s2.clients[1].open == {"a"};
    assert s2.calls == map[0 := first];
    assert s2.clients == SecondOpen().clients;
    Two(s, e1, s1, e2, s2);
    es := [e1, e2];
  }

  function AfterFirst(): State {
    State(CREATED, 0, [Writer(7, 0), Idle()], map[0 := OneByte(0, 7, true)])
  }

  function SecondOpen(): State {
    State(CREATED, 0, [Writer(7, 0), Client(map["a" := Entry(0, false)], map[0 := []], {"a"}, None, 0)], map[0 := OneByte(0, 7, true)])
  }

  lemma {:induction false} SecondSends() returns (es: seq<Event>)
    ensures IsRun(SecondOpen(), es)
    ensures Run(SecondOpen(), es) == BothSent()
  {
    var s := SecondOpen();
    var e1, e2, e3 := LocalWrite(1, "a", 0, [8]), FlushBegin(1, "a", 2), ClientSend(2);
    ByteMoves(8);
    var s1 := Step(s, e1);
    assert s1.clients[1].cache == map["a" := Entry(0, true)] && s1.clients[1].local == map[0 := [8]];
    var s2 := Step(s1, e2);
    assert s2.clients[1] == Writer(8, 2);
    assert s2.calls == map[0 := OneByte(0, 7, true), 2 := Upload(1, 0, 0, "a", 0, 1, 0, false, [], Waiting, [8])];
    var s3 := Step(s2, e3);
    assert s3.calls[2].chan == [[8]];
    assert s3.calls == map[0 := OneByte(0, 7, true), 2 := OneByte(1, 8, false)];
    assert s3.clients == [Writer(7, 0), Writer(8, 2)];
    Two(s, e1, s1, e2, s2);
    Extend(s, [e1, e2], e3);
    es := [e1, e2] + [e3];
  }

  function BothSent(): State {
    State(CREATED, 0, [Writer(7, 0), Writer(8, 2)], map[0 := OneByte(0, 7, true), 2 := OneByte(1, 8, false)])
  }

  /** The server takes up the first upload. */
  lemma {:induction false} FirstOpened()
    ensures Fair(BothSent(), TempOpen(0, 1)) && Step(BothSent(), TempOpen(0, 1)) == TempOpened()
  {
    var t := Step(BothSent(), TempOpen(0, 1));
    assert t.calls == TempOpened().calls;
    assert t.disk == TempOpened().disk;
  }

  function TempOpened(): State {
    State(Disk(map["a" := 0][Temp("a") := 1], map[0 := [], 1 := []]), 0, [Writer(7, 0), Writer(8, 2)],
          map[0 := Upload(0, 0, 0, "a", 0, 1, 1, true, [[7]], Writing(1, 0), [7]), 2 := OneByte(1, 8, false)])
  }

  lemma {:induction false} FirstWritten()
    ensures Fair(TempOpened(), TempWrite(0))
    ensures var t := Step(TempOpened(), TempWrite(0));
            Enabled(t, Commit(0)) && Enabled(t, TempOpen(2, 2)) && t.calls[0].path == t.calls[2].path == "a"
  {
  }

  /** Two clients that write one file and close it at about the same time, with every assumption
      met so far: the server has read all of one upload and has not renamed it yet, and may now
      open the same temp file for the other. */
  lemma {:induction false} OverlapHappens() returns (es: seq<Event>)
    ensures Initial(TwoClients()) && IsRun(TwoClients(), es)
    ensures var t := Run(TwoClients(), es);
            Enabled(t, Commit(0)) && Enabled(t, TempOpen(2, 2)) && t.calls[0].path == t.calls[2].path == "a"
  {
    hide Step, Enabled, Assumed, IsRun, Run, Written, AfterFirst, Answered, SecondOpen, BothSent, TempOpened;
    var a := FirstWrites();
    var b := FirstSends();
    var asks := SecondAsks();
    var opens := SecondOpens();
    var c := asks + opens;
    var d := SecondSends();
    Chain(AfterFirst(), asks, Answered(), opens, SecondOpen());
    Chain(AfterFirst(), c, SecondOpen(), d, BothSent());
    Chain(Written(), b, AfterFirst(), c + d, BothSent());
    Chain(TwoClients(), a, Written(), b + (c + d), BothSent());
    FirstOpened();
    FirstWritten();
    var t := Step(TempOpened(), TempWrite(0));
    Two(BothSent(), TempOpen(0, 1), TempOpened(), TempWrite(0), t);
    Chain(TwoClients(), a + (b + (c + d)), BothSent(), [TempOpen(0, 1), TempWrite(0)], t);
    es := a + (b + (c + d)) + [TempOpen(0, 1), TempWrite(0)];
  }

  /** And when it does, the first client's close puts an empty file in place of its byte. */
  lemma {:induction false} OverlapLoses() returns (es: seq<Event>)
    ensures IsRun(TwoClients(), es) && Enabled(Run(TwoClients(), es), TempOpen(2, 2))
    ensures Enabled(Step(Run(TwoClients(), es), TempOpen(2, 2)), Commit(0))
    ensures var disk := Step(Step(Run(TwoClients(), es), TempOpen(2, 2)), Commit(0)).disk;
            "a" in disk.names && disk.names["a"] in disk.data && disk.Content("a") == []
  {
    es := OverlapHappens();
    hide Step, IsRun, Run, TwoClients, Inv;
    InvInitial(TwoClients());
    InvRun(TwoClients(), es);
    OverlapTears(Run(TwoClients(), es), 0, 2, 2);
  }

  lemma {:induction false} Chain(s: State, a: seq<Event>, t: State, b: seq<Event>, u: State)
    requires IsRun(s, a) && Run(s, a) == t && IsRun(t, b) && Run(t, b) == u
    ensures IsRun(s, a + b) && Run(s, a + b) == u
  {
    RunConcat(s, a, b);
  }
}
