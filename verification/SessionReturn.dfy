/** Calls return: a flush that both processes live through can always run to its end, and an
    idle client can always begin the next call. */
module SessionReturn {
  import opened Options
  import opened Posix
  import opened Chunks
  import opened Session
  import opened SessionInvariant
  import opened SessionRefinement
  import opened SessionTheorems
  import opened SessionFlush

  // ----- the shape of an upload ---------------------------------------------------------------

  /** No message is empty, the temp file is open only once a message has come, and the handler
      of a client that is there has not gone on before the client was done. */
  ghost predicate ShapeOk(s: State, u: Call)
    requires u.Upload?
  {
    && (forall i :: 0 <= i < |u.chan| ==> u.chan[i] != [])
    && (u.phase.Writing? && u.phase.off == 0 ==> u.chan != [])
    && (Attached(s, u) && !Unsettled(u) ==> u.done)
  }

  ghost predicate Shaped(s: State) {
    forall r :: Uploads(s, r) ==> ShapeOk(s, s.calls[r])
  }

  lemma {:induction false} ShapeTransfer(s: State, e: Event, r: Rid)
    requires Shaped(s) && Fair(s, e) && InTransfer(e) && Uploads(Step(s, e), r)
    ensures ShapeOk(Step(s, e), Step(s, e).calls[r])
  {
    assert Uploads(s, r) && ShapeOk(s, s.calls[r]);
  }

  lemma {:induction false} ShapeElse(s: State, e: Event, r: Rid)
    requires Shaped(s) && Fair(s, e) && !InTransfer(e) && Uploads(Step(s, e), r)
    requires r in s.calls ==> CallOk(s, r, s.calls[r])
    ensures ShapeOk(Step(s, e), Step(s, e).calls[r])
  {
    if Uploads(s, r) {
      assert ShapeOk(s, s.calls[r]);
    }
  }

  lemma {:induction false} ShapedStep(s: State, e: Event)
    requires Inv(s) && Shaped(s) && Fair(s, e)
    ensures Shaped(Step(s, e))
  {
    forall r | Uploads(Step(s, e), r)
      ensures ShapeOk(Step(s, e), Step(s, e).calls[r])
    {
      if InTransfer(e) {
        ShapeTransfer(s, e, r);
      } else {
        ShapeElse(s, e, r);
      }
    }
  }

  lemma {:induction false} ShapedRun(s: State, es: seq<Event>)
    requires Inv(s) && Shaped(s) && IsRun(s, es)
    ensures Shaped(Run(s, es))
    decreases |es|
  {
    if es != [] {
      ShapedStep(s, es[0]);
      InvStep(s, es[0]);
      ShapedRun(Step(s, es[0]), es[1..]);
    }
  }

  // ----- to the end -----------------------------------------------------------------------------

  /** A call that is being carried out, between two living processes. */
  ghost predicate Alive(s: State, r: Rid) {
    Inv(s) && Shaped(s) && Uploads(s, r) && Attached(s, s.calls[r]) && Served(s, s.calls[r])
  }

  /** Nobody crashes. */
  predicate Calm(es: seq<Event>) {
    forall i :: 0 <= i < |es| ==> !es[i].ServerCrash? && !es[i].ClientCrash?
  }

  /** `es` takes the flush `r` of `c` to its return with status 1. */
  ghost predicate Returns(s: State, es: seq<Event>, r: Rid, c: nat) {
    && Calm(es) && IsRun(s, es + [FlushEnd(r, 1)])
    && var t := Run(s, es + [FlushEnd(r, 1)]);
       r !in t.calls && c < |t.clients| && t.clients[c].busy == None
  }

  /** And then the path holds the bytes. */
  ghost predicate ReturnsWith(s: State, es: seq<Event>, r: Rid, c: nat, p: Path, bytes: Bytes) {
    Returns(s, es, r, c) && Holds(Run(s, es + [FlushEnd(r, 1)]).disk, p, bytes)
  }

  lemma {:induction false} ReturnsLater(s: State, e: Event, es: seq<Event>, r: Rid, c: nat)
    requires Fair(s, e) && !e.ServerCrash? && !e.ClientCrash? && Returns(Step(s, e), es, r, c)
    ensures Returns(s, [e] + es, r, c)
    ensures Run(s, ([e] + es) + [FlushEnd(r, 1)]) == Run(Step(s, e), es + [FlushEnd(r, 1)])
  {
    RunCons(s, e, es + [FlushEnd(r, 1)]);
    assert ([e] + es) + [FlushEnd(r, 1)] == [e] + (es + [FlushEnd(r, 1)]);
  }

  lemma {:induction false} EndedReturns(s: State, r: Rid)
    requires Alive(s, r) && s.calls[r].phase.Ended?
    ensures Returns(s, [], r, s.calls[r].client)
    ensures Run(s, [] + [FlushEnd(r, 1)]).disk == s.disk
  {
    assert ShapeOk(s, s.calls[r]);
    assert CallOk(s, r, s.calls[r]);
    RunCons(s, FlushEnd(r, 1), []);
    assert [FlushEnd(r, 1)] + [] == [] + [FlushEnd(r, 1)];
  }

  /** After the rename there is the unlink, which leaves the path alone. */
  lemma {:induction false} RenamedReturns(s: State, r: Rid, p: Path, bytes: Bytes)
    requires Alive(s, r) && s.calls[r].phase.Renamed? && !IsTemp(p)
    ensures Returns(s, [TempUnlink(r)], r, s.calls[r].client)
    ensures Holds(s.disk, p, bytes) ==> ReturnsWith(s, [TempUnlink(r)], r, s.calls[r].client, p, bytes)
  {
    var e := TempUnlink(r);
    var t := Step(s, e);
    InvStep(s, e);
    ShapedStep(s, e);
    EndedReturns(t, r);
    ReturnsLater(s, e, [], r, s.calls[r].client);
    assert [e] + [] == [e];
  }

  lemma {:induction false} CommitReturns(s: State, r: Rid)
    requires Alive(s, r) && Fair(s, Commit(r))
    ensures ReturnsWith(s, [Commit(r), TempUnlink(r)], r, s.calls[r].client, s.calls[r].path, s.calls[r].copy)
  {
    var e := Commit(r);
    var u := s.calls[r];
    CommitExact(s, r);
    InvStep(s, e);
    ShapedStep(s, e);
    RenamedReturns(Step(s, e), r, u.path, u.copy);
    ReturnsLater(s, e, [TempUnlink(r)], r, u.client);
    assert [e] + [TempUnlink(r)] == [e, TempUnlink(r)];
  }

  lemma {:induction false} EmptyReturns(s: State, r: Rid)
    requires Alive(s, r) && s.calls[r].phase.Waiting? && s.calls[r].done && s.calls[r].chan == []
    ensures Returns(s, [NothingSent(r)], r, s.calls[r].client)
  {
    var e := NothingSent(r);
    assert CallOk(s, r, s.calls[r]);
    InvStep(s, e);
    ShapedStep(s, e);
    EndedReturns(Step(s, e), r);
    ReturnsLater(s, e, [], r, s.calls[r].client);
    assert [e] + [] == [e];
  }

  /** While the flush has not been settled, there is a next step towards it. */
  lemma {:induction false} NextStep(s: State, r: Rid) returns (e: Event)
    requires Alive(s, r) && Unsettled(s.calls[r])
    requires s.calls[r].phase.Waiting? ==> NoLiveUpload(s, s.calls[r].path)
    requires !s.calls[r].done || s.calls[r].chan != []
    ensures Fair(s, e) && !e.ServerCrash? && !e.ClientCrash?
    ensures var u, t := s.calls[r], Step(s, e);
            && Alive(t, r) && Unsettled(t.calls[r])
            && t.calls[r].client == u.client && t.calls[r].path == u.path && t.calls[r].copy == u.copy
            && (t.calls[r].phase.Waiting? ==> NoLiveUpload(t, u.path))
            && u.sent <= |u.copy| && t.calls[r].sent <= |u.copy|
            && (if !u.done then t.calls[r].done || t.calls[r].sent > u.sent
                else && t.calls[r].done && t.calls[r].sent == u.sent
                     && (if u.phase.Waiting? then t.calls[r].phase.Writing? else t.calls[r].phase.Writing? && |t.calls[r].chan| < |u.chan|))
  {
    var u := s.calls[r];
    assert CallOk(s, r, u);
    if !u.done {
      e := ClientSend(r);
      NextSend(s, r);
    } else if u.phase.Waiting? {
      var i := UnusedAbove(s.disk.data.Keys);
      e := TempOpen(r, i);
    } else {
      e := TempWrite(r);
    }
    InvStep(s, e);
    ShapedStep(s, e);
  }

  lemma {:induction false} NextSend(s: State, r: Rid)
    requires Alive(s, r) && !s.calls[r].done
    ensures Fair(s, ClientSend(r))
    ensures var u, v := s.calls[r], Step(s, ClientSend(r)).calls[r];
            && v.sent <= |u.copy| && (v.done || v.sent > u.sent)
            && v == u.(sent := v.sent, chan := v.chan, done := v.done)
  {
    var u := s.calls[r];
    assert CallOk(s, r, u);
    AfterTurnLength(u);
  }

  /** What is at the end of a stream that has been read: the empty copy in a handler that is
      still waiting, or everything in the temp file. */
  lemma {:induction false} ReadOut(s: State, r: Rid)
    requires Alive(s, r) && Unsettled(s.calls[r]) && s.calls[r].done && s.calls[r].chan == []
    ensures s.calls[r].phase.Waiting? ==> s.calls[r].copy == []
    ensures s.calls[r].phase.Writing? ==> s.calls[r].copy != [] && Fair(s, Commit(r))
  {
    var u := s.calls[r];
    assert CallOk(s, r, u);
    assert ShapeOk(s, u);
    InTransitOffset(u.copy, Got(u), u.chan, u.sent);
  }

  /** A flush can run to its return with status 1, without a crash, from every state in which
      both its processes live and no other upload is in its way; and then the path holds the copy
      that it was settling, unless that was empty. */
  lemma {:induction false} FlushCanReturn(s: State, r: Rid) returns (es: seq<Event>)
    requires Alive(s, r)
    requires s.calls[r].phase.Waiting? ==> NoLiveUpload(s, s.calls[r].path)
    ensures Returns(s, es, r, s.calls[r].client)
    ensures Unsettled(s.calls[r]) && s.calls[r].copy != [] ==>
              ReturnsWith(s, es, r, s.calls[r].client, s.calls[r].path, s.calls[r].copy)
    decreases !s.calls[r].done, |s.calls[r].copy| - s.calls[r].sent, s.calls[r].phase.Waiting?, |s.calls[r].chan|
  {
    var u := s.calls[r];
    if u.phase.Ended? {
      EndedReturns(s, r);
      es := [];
    } else if u.phase.Renamed? {
      RenamedReturns(s, r, "", []);
      es := [TempUnlink(r)];
    } else if u.done && u.chan == [] {
      ReadOut(s, r);
      if u.phase.Waiting? {
        EmptyReturns(s, r);
        es := [NothingSent(r)];
      } else {
        CommitReturns(s, r);
        es := [Commit(r), TempUnlink(r)];
      }
    } else {
      var e := NextStep(s, r);
      var rest := FlushCanReturn(Step(s, e), r);
      ReturnsLater(s, e, rest, r, u.client);
      es := [e] + rest;
    }
  }

  /** From a reachable state, so: a client that flushes with nobody in its way gets its answer,
      is idle again, and the server holds what it flushed. */
  lemma {:induction false} FlushReturns(s: State, run: seq<Event>, c: nat, p: Path, r: Rid) returns (es: seq<Event>)
    requires Initial(s) && IsRun(s, run) && Fair(Run(s, run), FlushBegin(c, p, r)) && NoLiveUpload(Run(s, run), p)
    ensures var t := Step(Run(s, run), FlushBegin(c, p, r));
            && Returns(t, es, r, c)
            && (t.calls[r].copy != [] ==> ReturnsWith(t, es, r, c, p, t.calls[r].copy))
  {
    InvInitial(s);
    InvRun(s, run);
    ShapedRun(s, run);
    var m := Run(s, run);
    InvStep(m, FlushBegin(c, p, r));
    ShapedStep(m, FlushBegin(c, p, r));
    es := FlushCanReturn(Step(m, FlushBegin(c, p, r)), r);
  }

  // ----- a server that is gone --------------------------------------------------------------------

  /** A client whose server died does not hang either: its open ends at once, and its flush after
      at most one more step of its own, with the disk as the server left it. */
  lemma {:induction false} OrphanReturns(s: State, r: Rid) returns (es: seq<Event>)
    requires Inv(s) && r in s.calls && Attached(s, s.calls[r]) && !Served(s, s.calls[r])
    ensures IsRun(s, es) && es != [] && |es| <= 2 && Calm(es)
    ensures var k := s.calls[r];
            es[|es| - 1] == if k.Download? then OpenEnd(r)
                            else FlushEnd(r, if k.done || k.sent == |k.copy| then 1 else -1)
    ensures var t := Run(s, es);
            && r !in t.calls && t.disk == s.disk
            && s.calls[r].client < |t.clients| && t.clients[s.calls[r].client].busy == None
  {
    var k := s.calls[r];
    assert CallOk(s, r, k);
    if k.Download? {
      es := OneStep(s, OpenEnd(r));
    } else if k.done {
      es := OneStep(s, FlushEnd(r, 1));
    } else {
      AfterTurnLength(k);
      if k.sent < |k.copy| {
        es := OneStep(s, FlushEnd(r, -1));
      } else {
        es := OneStep(Step(s, ClientSend(r)), FlushEnd(r, 1));
        RunCons(s, ClientSend(r), es);
        es := [ClientSend(r)] + es;
      }
    }
  }

  lemma {:induction false} OneStep(s: State, e: Event) returns (es: seq<Event>)
    requires Fair(s, e)
    ensures es == [e] && IsRun(s, es) && Run(s, es) == Step(s, e)
  {
    es := [e];
    assert es[1..] == [];
  }

  // ----- an idle client --------------------------------------------------------------------------

  lemma {:induction false} IdleAt(s: State, c: nat, x: Rid)
    requires Inv(s) && c < |s.clients| && s.clients[c].busy == None
    ensures !(x in s.calls && Attached(s, s.calls[x]) && s.calls[x].client == c)
  {
    assert x in s.calls ==> CallOk(s, x, s.calls[x]);
  }

  lemma {:induction false} IdleFlushesNothing(s: State, c: nat, p: Path)
    requires Inv(s) && c < |s.clients| && s.clients[c].busy == None
    ensures !Uploading(s, c, p)
  {
    forall x
      ensures !(x in s.calls && Attached(s, s.calls[x]) && s.calls[x].client == c)
    {
      IdleAt(s, c, x);
    }
  }

  /** What an idle client may begin, in terms of the application's handles and the server's
      names: it opens what exists and it has not open, flushes what it has written, creates what
      is nowhere, deletes and renames what it has not open. */
  lemma {:induction false} IdleMay(s: State, c: nat, p: Path, q: Path, r: Rid, i: Ino)
    requires Inv(s) && c < |s.clients| && s.clients[c].busy == None && r !in s.calls && i !in s.disk.data
    requires !IsTemp(p) && !IsTemp(q)
    ensures Fair(s, OpenBegin(c, p, r)) <==> p in s.disk.names && p !in s.clients[c].open
    ensures Fair(s, FlushBegin(c, p, r)) <==> p in s.clients[c].open && p in s.clients[c].cache && s.clients[c].cache[p].dirty
    ensures Fair(s, CreateFile(c, p, i)) <==> p !in s.disk.names && p !in s.clients[c].cache
    ensures Fair(s, DeleteFile(c, p)) <==> p !in s.clients[c].open
    ensures Fair(s, RenameFile(c, p, q)) <==> p !in s.clients[c].open && q !in s.clients[c].open && !Elsewhere(s, c, p)
  {
    NamesKnown(s);
    assert ClientOk(s, c);
  }

  /** And it may write and release exactly what it has open. */
  lemma {:induction false} HandleMay(s: State, c: nat, p: Path, off: nat, data: Bytes)
    requires Inv(s) && c < |s.clients| && s.clients[c].busy == None
    ensures Fair(s, LocalWrite(c, p, off, data)) <==> p in s.clients[c].open
    ensures Fair(s, ReleaseFile(c, p)) <==> p in s.clients[c].open
  {
    assert ClientOk(s, c);
    IdleFlushesNothing(s, c, p);
  }
}
