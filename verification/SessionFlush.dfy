/** What a flush that returns has done, what it may have done if somebody crashed, and when
    exactly. */
module SessionFlush {
  import opened Options
  import opened Posix
  import opened Chunks
  import opened Session
  import opened SessionInvariant
  import opened SessionRefinement
  import opened SessionTheorems

  predicate Ends(e: Event, r: Rid) {
    e.FlushEnd? && e.r == r
  }

  predicate Kills(e: Event, c: nat) {
    e.ClientCrash? && e.c == c
  }

  /** The path holds the bytes. */
  predicate Holds(disk: Disk, p: Path, bytes: Bytes) {
    p in disk.names && disk.names[p] in disk.data && disk.Content(p) == bytes
  }

  // ----- while a flush is under way --------------------------------------------------------

  /** The flush `r` of client `c` has not returned; if it has committed, or has given up, that
      shows. */
  ghost predicate Going(s: State, r: Rid, c: nat, p: Path, f: Bytes, committed: bool) {
    && Uploads(s, r) && Attached(s, s.calls[r])
    && s.calls[r].client == c && s.calls[r].path == p && s.calls[r].copy == f
    && (if committed then f != [] && s.calls[r].done && !Unsettled(s.calls[r])
        else !Unsettled(s.calls[r]) ==> f == [])
  }

  lemma {:induction false} GoingCommit(s: State, r: Rid, c: nat, p: Path, f: Bytes, committed: bool)
    requires Inv(s) && Fair(s, Commit(r)) && Going(s, r, c, p, f, committed)
    ensures Going(Step(s, Commit(r)), r, c, p, f, true)
    ensures Step(s, Commit(r)).calls[r].epoch == s.calls[r].epoch
    ensures Served(s, s.calls[r]) && Holds(Step(s, Commit(r)).disk, p, f)
  {
    CommitExact(s, r);
  }

  lemma {:induction false} GoingNothing(s: State, r: Rid, c: nat, p: Path, f: Bytes, committed: bool)
    requires Inv(s) && Fair(s, NothingSent(r)) && Going(s, r, c, p, f, committed)
    ensures Going(Step(s, NothingSent(r)), r, c, p, f, committed)
    ensures Step(s, NothingSent(r)).calls[r].epoch == s.calls[r].epoch
  {
    assert CallOk(s, r, s.calls[r]);
    InTransitOffset(f, Got(s.calls[r]), s.calls[r].chan, s.calls[r].sent);
  }

  lemma {:induction false} GoingTransfer(s: State, e: Event, r: Rid, c: nat, p: Path, f: Bytes, committed: bool)
    requires Fair(s, e) && Going(s, r, c, p, f, committed) && !Ends(e, r) && InTransfer(e)
    requires e != Commit(r) && e != NothingSent(r)
    ensures Going(Step(s, e), r, c, p, f, committed)
    ensures Step(s, e).calls[r].epoch == s.calls[r].epoch
  {
  }

  lemma {:induction false} GoingElse(s: State, e: Event, r: Rid, c: nat, p: Path, f: Bytes, committed: bool)
    requires Fair(s, e) && Going(s, r, c, p, f, committed) && !InTransfer(e) && !Kills(e, c)
    ensures Going(Step(s, e), r, c, p, f, committed)
    ensures Step(s, e).calls[r].epoch == s.calls[r].epoch
  {
  }

  lemma {:induction false} GoingStep(s: State, e: Event, r: Rid, c: nat, p: Path, f: Bytes, committed: bool)
    requires Inv(s) && Fair(s, e) && Going(s, r, c, p, f, committed) && !Ends(e, r) && !Kills(e, c)
    ensures Going(Step(s, e), r, c, p, f, committed || e == Commit(r))
    ensures Step(s, e).calls[r].epoch == s.calls[r].epoch
  {
    if e == Commit(r) {
      GoingCommit(s, r, c, p, f, committed);
    } else if e == NothingSent(r) {
      GoingNothing(s, r, c, p, f, committed);
    } else if InTransfer(e) {
      GoingTransfer(s, e, r, c, p, f, committed);
    } else {
      GoingElse(s, e, r, c, p, f, committed);
    }
  }

  predicate Undisturbed(es: seq<Event>, r: Rid, c: nat) {
    forall i :: 0 <= i < |es| ==> !Ends(es[i], r) && !Kills(es[i], c)
  }

  lemma {:induction false} GoingRun(s: State, es: seq<Event>, r: Rid, c: nat, p: Path, f: Bytes, committed: bool)
    requires Inv(s) && IsRun(s, es) && Going(s, r, c, p, f, committed) && Undisturbed(es, r, c)
    ensures Going(Run(s, es), r, c, p, f, committed || Commit(r) in es)
    ensures Run(s, es).calls[r].epoch == s.calls[r].epoch
    decreases |es|
  {
    if es != [] {
      GoingStep(s, es[0], r, c, p, f, committed);
      InvStep(s, es[0]);
      assert forall i :: 0 <= i < |es[1..]| ==> es[1..][i] == es[i + 1];
      GoingRun(Step(s, es[0]), es[1..], r, c, p, f, committed || es[0] == Commit(r));
      assert es == [es[0]] + es[1..];
    }
  }

  lemma {:induction false} Epochs(s: State, es: seq<Event>)
    requires IsRun(s, es)
    ensures if ServerCrash in es then Run(s, es).epoch > s.epoch else Run(s, es).epoch == s.epoch
    decreases |es|
  {
    if es != [] {
      Epochs(Step(s, es[0]), es[1..]);
      assert es == [es[0]] + es[1..];
    }
  }

  lemma {:induction false} CutRun(s: State, es: seq<Event>, i: nat)
    requires IsRun(s, es) && i < |es|
    ensures IsRun(s, es[..i]) && Fair(Run(s, es[..i]), es[i])
    ensures IsRun(s, es[..i + 1]) && Run(s, es[..i + 1]) == Step(Run(s, es[..i]), es[i])
  {
    assert es == es[..i] + es[i..];
    RunConcat(s, es[..i], es[i..]);
    var m := Run(s, es[..i]);
    assert es[i..][0] == es[i];
    assert es[..i + 1] == es[..i] + [es[i]];
    RunCons(m, es[i], []);
    RunConcat(s, es[..i], [es[i]]);
  }

  /** An undisturbed flush commits only before any crash of the server, and then the path
      holds the whole copy. */
  lemma {:induction false} CommitInRun(s: State, es: seq<Event>, i: nat, r: Rid, c: nat, p: Path, f: Bytes)
    requires Inv(s) && IsRun(s, es) && Going(s, r, c, p, f, false) && Undisturbed(es, r, c)
    requires i < |es| && es[i] == Commit(r) && Served(s, s.calls[r])
    ensures ServerCrash !in es[..i] && IsRun(s, es[..i + 1]) && Holds(Run(s, es[..i + 1]).disk, p, f)
  {
    var pre := es[..i];
    CutRun(s, es, i);
    GoingRun(s, pre, r, c, p, f, false);
    InvRun(s, pre);
    Epochs(s, pre);
    GoingCommit(Run(s, pre), r, c, p, f, Commit(r) in pre);
  }

  /** The end of a flush: what its status says. */
  lemma {:induction false} StatusMeans(m: State, c: nat, p: Path, r: Rid, f: Bytes, status: int, committed: bool)
    requires Inv(m) && Fair(m, FlushEnd(r, status)) && Going(m, r, c, p, f, committed)
    ensures f == [] ==> status == 1
    ensures Served(m, m.calls[r]) ==> status == 1 && (committed || f == [])
    ensures status == -1 ==> !Served(m, m.calls[r]) && !committed
  {
    assert CallOk(m, r, m.calls[r]);
  }

  /** A flush, from its beginning to its end. */
  lemma {:induction false} WholeFlush(s: State, mid: seq<Event>, c: nat, p: Path, r: Rid, status: int) returns (t: State, f: Bytes)
    requires Inv(s) && IsRun(s, [FlushBegin(c, p, r)] + mid + [FlushEnd(r, status)]) && Undisturbed(mid, r, c)
    ensures c < |s.clients| && p in s.clients[c].cache && s.clients[c].cache[p].ino in s.clients[c].local
    ensures f == s.clients[c].local[s.clients[c].cache[p].ino]
    ensures Fair(s, FlushBegin(c, p, r)) && t == Step(s, FlushBegin(c, p, r))
    ensures Inv(t) && IsRun(t, mid) && Going(t, r, c, p, f, false) && Served(t, t.calls[r])
    ensures Fair(Run(t, mid), FlushEnd(r, status))
  {
    var e0, e1 := FlushBegin(c, p, r), FlushEnd(r, status);
    var es := [e0] + mid + [e1];
    assert es[0] == e0 && es[1..] == mid + [e1];
    f := s.clients[c].local[s.clients[c].cache[p].ino];
    t := Step(s, e0);
    InvStep(s, e0);
    RunConcat(t, mid, [e1]);
    assert Fair(Run(t, mid), [e1][0]);
  }

  /** What a flush that returned has done: without a crash it returns 1, and it has published
      exactly if the copy was not empty; -1 means that the server crashed and that nothing was
      published; and a copy that 1 was returned for is missing exactly if the server crashed
      before its rename. */
  lemma {:induction false} FlushOutcome(s: State, mid: seq<Event>, c: nat, p: Path, r: Rid, status: int)
    requires Inv(s) && IsRun(s, [FlushBegin(c, p, r)] + mid + [FlushEnd(r, status)]) && Undisturbed(mid, r, c)
    ensures c < |s.clients| && p in s.clients[c].cache && s.clients[c].cache[p].ino in s.clients[c].local
    ensures var f := s.clients[c].local[s.clients[c].cache[p].ino];
            && (f == [] ==> status == 1 && Commit(r) !in mid)
            && (ServerCrash !in mid ==> status == 1 && (Commit(r) in mid <==> f != []))
            && (status == -1 ==> ServerCrash in mid && Commit(r) !in mid)
            && (f != [] ==> (Commit(r) !in mid <==> exists i :: 0 <= i < |mid| && mid[i] == ServerCrash && Commit(r) !in mid[..i]))
            && (forall i :: 0 <= i < |mid| && mid[i] == Commit(r) ==>
                  IsRun(s, [FlushBegin(c, p, r)] + mid[..i + 1]) &&
                  Holds(Run(s, [FlushBegin(c, p, r)] + mid[..i + 1]).disk, p, f))
  {
    var t, f := WholeFlush(s, mid, c, p, r, status);
    GoingRun(t, mid, r, c, p, f, false);
    InvRun(t, mid);
    Epochs(t, mid);
    StatusMeans(Run(t, mid), c, p, r, f, status, Commit(r) in mid);
    forall i | 0 <= i < |mid| && mid[i] == Commit(r)
      ensures ServerCrash !in mid[..i]
      ensures IsRun(s, [FlushBegin(c, p, r)] + mid[..i + 1])
      ensures Holds(Run(s, [FlushBegin(c, p, r)] + mid[..i + 1]).disk, p, f)
    {
      CommitInRun(t, mid, i, r, c, p, f);
      RunCons(s, FlushBegin(c, p, r), mid[..i + 1]);
    }
    CrashBeforeCommit(mid, r);
  }

  /** A list that has a crash, and no commit after one, has no commit exactly if a crash comes
      with no commit before it. */
  lemma {:induction false} CrashBeforeCommit(mid: seq<Event>, r: Rid)
    requires forall i :: 0 <= i < |mid| && mid[i] == Commit(r) ==> ServerCrash !in mid[..i]
    ensures (ServerCrash in mid && Commit(r) !in mid) <==>
            exists i :: 0 <= i < |mid| && mid[i] == ServerCrash && Commit(r) !in mid[..i]
  {
    if ServerCrash in mid && Commit(r) !in mid {
      var i :| 0 <= i < |mid| && mid[i] == ServerCrash;
      assert Commit(r) !in mid[..i];
    }
    if i :| 0 <= i < |mid| && mid[i] == ServerCrash && Commit(r) !in mid[..i] {
      forall j | 0 <= j < |mid|
        ensures mid[j] != Commit(r)
      {
        assert j < i ==> mid[j] == mid[..i][j];
        assert j > i ==> mid[i] == mid[..j][i];
      }
    }
  }

  // ----- success without publication -------------------------------------------------------

  /** A client sends its copy to the end; the server need not have read any of it. */
  lemma {:induction false} SendOn(s: State, r: Rid) returns (es: seq<Event>)
    requires Inv(s) && r in s.calls && Unsettled(s.calls[r]) && Attached(s, s.calls[r])
    ensures IsRun(s, es) && forall e :: e in es ==> e == ClientSend(r)
    ensures var t := Run(s, es);
            t.disk == s.disk && r in t.calls && Unsettled(t.calls[r]) && Attached(t, t.calls[r]) && t.calls[r].done
    decreases !s.calls[r].done, |s.calls[r].copy| - s.calls[r].sent
  {
    var u := s.calls[r];
    assert CallOk(s, r, u);
    if u.done {
      es := [];
    } else {
      var t := Step(s, ClientSend(r));
      AfterTurnLength(u);
      assert UploadTurn(u.copy, |u.copy|, u.sent) == [] ==> t.calls[r].done;
      InvStep(s, ClientSend(r));
      var rest := SendOn(t, r);
      RunCons(s, ClientSend(r), rest);
      es := [ClientSend(r)] + rest;
    }
  }

  lemma {:induction false} LiesNow(s: State, r: Rid)
    requires r in s.calls && Unsettled(s.calls[r]) && Attached(s, s.calls[r]) && s.calls[r].done
    requires s.calls[r].epoch <= s.epoch
    ensures IsRun(s, [ServerCrash, FlushEnd(r, 1)])
    ensures Run(s, [ServerCrash, FlushEnd(r, 1)]).disk == s.disk && r !in Run(s, [ServerCrash, FlushEnd(r, 1)]).calls
  {
    RunCons(Step(s, ServerCrash), FlushEnd(r, 1), []);
    RunCons(s, ServerCrash, [FlushEnd(r, 1)]);
    assert [ServerCrash] + [FlushEnd(r, 1)] == [ServerCrash, FlushEnd(r, 1)];
  }

  /** A flush that has not published can still return 1 without ever publishing: the client
      finishes sending, the server dies before its rename, and the client ignores the final
      status of the call. */
  lemma {:induction false} FlushMayLie(s: State, r: Rid) returns (es: seq<Event>)
    requires Inv(s) && r in s.calls && Unsettled(s.calls[r]) && Attached(s, s.calls[r])
    ensures forall e :: e in es ==> e == ClientSend(r)
    ensures IsRun(s, es + [ServerCrash, FlushEnd(r, 1)])
    ensures var t := Run(s, es + [ServerCrash, FlushEnd(r, 1)]);
            t.disk == s.disk && r !in t.calls
  {
    es := SendOn(s, r);
    InvRun(s, es);
    assert CallOk(Run(s, es), r, Run(s, es).calls[r]);
    LiesNow(Run(s, es), r);
    RunConcat(s, es, [ServerCrash, FlushEnd(r, 1)]);
  }

  // ----- publication of a piece ------------------------------------------------------------

  /** The next commit of `r`, after `es`. */
  predicate CommitsAfter(s: State, es: seq<Event>, r: Rid) {
    IsRun(s, es + [Commit(r)]) && forall i :: 0 <= i < |es| ==> es[i] != Commit(r) && !Ends(es[i], r)
  }

  /** And what that commit leaves at the path. */
  ghost predicate Leaves(s: State, es: seq<Event>, r: Rid, p: Path, bytes: Bytes) {
    CommitsAfter(s, es, r) && Holds(Run(s, es + [Commit(r)]).disk, p, bytes)
  }

  /** Whatever happens, crashes included, the flush publishes its whole copy or nothing. */
  ghost predicate CommitsWhole(s: State, r: Rid)
    requires Uploads(s, r)
  {
    forall es :: CommitsAfter(s, es, r) ==>
      Holds(Run(s, es + [Commit(r)]).disk, s.calls[r].path, s.calls[r].copy)
  }

  lemma {:induction false} UploadStays(s: State, e: Event, r: Rid)
    requires Uploads(s, r) && Fair(s, e) && !Ends(e, r)
    ensures Uploads(Step(s, e), r)
    ensures Step(s, e).calls[r].path == s.calls[r].path && Step(s, e).calls[r].copy == s.calls[r].copy
  {
  }

  /** All of the copy has been written to the temp file. */
  predicate Received(s: State, r: Rid) {
    Uploads(s, r) && s.calls[r].phase.Writing? && s.calls[r].phase.off == |s.calls[r].copy|
  }

  lemma {:induction false} ReceivedStays(s: State, e: Event, r: Rid)
    requires Inv(s) && Received(s, r) && Fair(s, e) && e != Commit(r) && !Ends(e, r)
    ensures Received(Step(s, e), r) && Step(s, e).calls[r].path == s.calls[r].path
    ensures Step(s, e).calls[r].copy == s.calls[r].copy
  {
    hide Step, Inv;
    if e == TempWrite(r) {
      InvStep(s, e);
      ReceivedWritten(s, r);
    } else if e == ClientSend(r) {
      SendKeeps(s, r);
    } else {
      OtherCallStays(s, e, r);
    }
  }

  lemma {:induction false} SendKeeps(s: State, r: Rid)
    requires Enabled(s, ClientSend(r))
    ensures var u, v := s.calls[r], Step(s, ClientSend(r)).calls[r];
            Uploads(Step(s, ClientSend(r)), r) && v.phase == u.phase && v.path == u.path && v.copy == u.copy
  {
  }

  /** While its temp file is being written, nothing but the two ends of an upload touches its call. */
  lemma {:induction false} OtherCallStays(s: State, e: Event, r: Rid)
    requires Uploads(s, r) && s.calls[r].phase.Writing? && Enabled(s, e)
    requires e != ClientSend(r) && e != TempWrite(r) && e != Commit(r) && !Ends(e, r)
    ensures r in Step(s, e).calls && Step(s, e).calls[r] == s.calls[r]
  {
  }

  lemma {:induction false} ReceivedWritten(s: State, r: Rid)
    requires Inv(s) && Received(s, r) && Fair(s, TempWrite(r)) && Inv(Step(s, TempWrite(r)))
    ensures Received(Step(s, TempWrite(r)), r) && Step(s, TempWrite(r)).calls[r].path == s.calls[r].path
    ensures Step(s, TempWrite(r)).calls[r].copy == s.calls[r].copy
  {
    assert CallOk(Step(s, TempWrite(r)), r, Step(s, TempWrite(r)).calls[r]);
  }

  /** Once the server has written everything, its rename publishes the whole copy, even if the
      client has crashed meanwhile. */
  lemma {:induction false} ReceivedIsWhole(s: State, es: seq<Event>, r: Rid)
    requires Inv(s) && Received(s, r) && CommitsAfter(s, es, r)
    ensures Holds(Run(s, es + [Commit(r)]).disk, s.calls[r].path, s.calls[r].copy)
    decreases |es|
  {
    var all := es + [Commit(r)];
    if es == [] {
      assert all == [Commit(r)];
      CommitExact(s, r);
      assert Run(s, all) == Step(s, Commit(r));
    } else {
      assert all[0] == es[0] && all[1..] == es[1..] + [Commit(r)];
      assert forall i :: 0 <= i < |es[1..]| ==> es[1..][i] == es[i + 1];
      InvStep(s, es[0]);
      ReceivedStays(s, es[0], r);
      ReceivedIsWhole(Step(s, es[0]), es[1..], r);
    }
  }

  /** A client that has called `WritesDone`. */
  predicate Finished(s: State, r: Rid) {
    Uploads(s, r) && s.calls[r].done
  }

  lemma {:induction false} FinishedRun(s: State, es: seq<Event>, r: Rid)
    requires Finished(s, r) && IsRun(s, es) && forall i :: 0 <= i < |es| ==> !Ends(es[i], r)
    ensures Finished(Run(s, es), r)
    ensures Run(s, es).calls[r].path == s.calls[r].path && Run(s, es).calls[r].copy == s.calls[r].copy
    decreases |es|
  {
    if es != [] {
      assert forall i :: 0 <= i < |es[1..]| ==> es[1..][i] == es[i + 1];
      FinishedStays(s, es[0], r);
      FinishedRun(Step(s, es[0]), es[1..], r);
    }
  }

  lemma {:induction false} FinishedStays(s: State, e: Event, r: Rid)
    requires Finished(s, r) && Fair(s, e) && !Ends(e, r)
    ensures Finished(Step(s, e), r)
    ensures Step(s, e).calls[r].path == s.calls[r].path && Step(s, e).calls[r].copy == s.calls[r].copy
  {
  }

  /** After `es` no message of the upload is under way. */
  predicate NothingLost(s: State, es: seq<Event>, r: Rid) {
    IsRun(s, es) && Uploads(Run(s, es), r) && Run(s, es).calls[r].chan == []
  }

  /** Once the client has sent everything and said so, a commit is whole, even if the client has
      crashed meanwhile, provided that no message under way died with it: the server has read
      what was sent. */
  lemma {:induction false} FinishedIsWhole(s: State, es: seq<Event>, r: Rid)
    requires Inv(s) && Finished(s, r) && CommitsAfter(s, es, r) && NothingLost(s, es, r)
    ensures Holds(Run(s, es + [Commit(r)]).disk, s.calls[r].path, s.calls[r].copy)
  {
    RunConcat(s, es, [Commit(r)]);
    FinishedRun(s, es, r);
    InvRun(s, es);
    var m := Run(s, es);
    assert Fair(m, [Commit(r)][0]);
    CommitExact(m, r);
    RunCons(m, Commit(r), []);
  }

  /** A client that dies in mid-flush: the server takes the broken stream for the end of the
      file, and renames what it has. */
  lemma {:induction false} CrashTears(s: State, r: Rid)
    requires Inv(s) && Uploads(s, r) && Attached(s, s.calls[r]) && Served(s, s.calls[r])
    requires s.calls[r].phase.Writing? && s.calls[r].phase.off > 0
    ensures var es, u := [ClientCrash(s.calls[r].client, map[])], s.calls[r];
            u.phase.off <= |u.copy| && Leaves(s, es, r, u.path, u.copy[..u.phase.off])
  {
    var u := s.calls[r];
    var e := ClientCrash(u.client, map[]);
    var t := AfterCrash(s, r);
    CommitExact(t, r);
    RunCons(t, Commit(r), []);
    RunCons(s, e, [Commit(r)]);
  }

  lemma {:induction false} AfterCrash(s: State, r: Rid) returns (t: State)
    requires Inv(s) && Uploads(s, r) && Attached(s, s.calls[r]) && Served(s, s.calls[r])
    requires s.calls[r].phase.Writing? && s.calls[r].phase.off > 0
    ensures Fair(s, ClientCrash(s.calls[r].client, map[])) && t == Step(s, ClientCrash(s.calls[r].client, map[]))
    ensures Inv(t) && Uploads(t, r) && t.calls[r] == s.calls[r] && Fair(t, Commit(r))
  {
    var e := ClientCrash(s.calls[r].client, map[]);
    assert CallOk(s, r, s.calls[r]);
    InvStep(s, e);
    t := Step(s, e);
  }

  /** In mid-flush, the flush is safe from a crash of its client if and only if the server
      has already written all of it. */
  lemma {:induction false} CommitsWholeIff(s: State, r: Rid)
    requires Inv(s) && Uploads(s, r) && Attached(s, s.calls[r]) && Served(s, s.calls[r])
    requires s.calls[r].phase.Writing? && s.calls[r].phase.off > 0
    ensures CommitsWhole(s, r) <==> s.calls[r].phase.off == |s.calls[r].copy|
  {
    if Received(s, r) {
      forall es | CommitsAfter(s, es, r)
        ensures Holds(Run(s, es + [Commit(r)]).disk, s.calls[r].path, s.calls[r].copy)
      {
        ReceivedIsWhole(s, es, r);
      }
    } else {
      CrashTears(s, r);
    }
  }

  lemma {:induction false} SmallIsWhole(s: State, es: seq<Event>, r: Rid)
    requires Inv(s) && Uploads(s, r) && |s.calls[r].copy| <= CHUNK && CommitsAfter(s, es, r)
    ensures Holds(Run(s, es + [Commit(r)]).disk, s.calls[r].path, s.calls[r].copy)
    decreases |es|
  {
    var all := es + [Commit(r)];
    if es == [] {
      assert all == [Commit(r)];
      CommitExact(s, r);
      assert Run(s, all) == Step(s, Commit(r));
    } else {
      assert all[0] == es[0] && all[1..] == es[1..] + [Commit(r)];
      assert forall i :: 0 <= i < |es[1..]| ==> es[1..][i] == es[i + 1];
      InvStep(s, es[0]);
      UploadStays(s, es[0], r);
      SmallIsWhole(Step(s, es[0]), es[1..], r);
    }
  }

  /** A flush that begins with no other upload to the path alive is atomic against crashes if
      and only if the copy fits one message. */
  lemma {:induction false} FlushAtomicIff(s: State, c: nat, p: Path, r: Rid)
    requires Inv(s) && Fair(s, FlushBegin(c, p, r)) && NoLiveUpload(s, p)
    ensures CommitsWhole(Step(s, FlushBegin(c, p, r)), r) <==>
            |s.clients[c].local[s.clients[c].cache[p].ino]| <= 1024
  {
    var t := Step(s, FlushBegin(c, p, r));
    var f := t.calls[r].copy;
    InvStep(s, FlushBegin(c, p, r));
    if |f| <= CHUNK {
      forall es | CommitsAfter(t, es, r)
        ensures Holds(Run(t, es + [Commit(r)]).disk, p, f)
      {
        SmallIsWhole(t, es, r);
      }
    } else {
      var es := FirstMessageOnly(t, r, c, p, f);
      assert CommitsAfter(t, es, r);
    }
  }

  /** A flush of the copy `f`, with both its processes alive. */
  ghost predicate InFlush(s: State, r: Rid, c: nat, p: Path, f: Bytes) {
    && Inv(s) && Uploads(s, r) && Attached(s, s.calls[r]) && Served(s, s.calls[r])
    && s.calls[r].client == c && s.calls[r].path == p && s.calls[r].copy == f
  }

  lemma {:induction false} FirstSend(s: State, r: Rid, c: nat, p: Path, f: Bytes) returns (t: State)
    requires InFlush(s, r, c, p, f) && |f| > CHUNK && NoLiveUpload(s, p)
    requires s.calls[r].phase.Waiting? && s.calls[r].chan == [] && s.calls[r].sent == 0 && !s.calls[r].done
    ensures Fair(s, ClientSend(r)) && t == Step(s, ClientSend(r)) && InFlush(t, r, c, p, f)
    ensures t.calls[r].phase.Waiting? && t.calls[r].chan == [f[..CHUNK]] && NoLiveUpload(t, p)
  {
    assert CallOk(s, r, s.calls[r]);
    t := Step(s, ClientSend(r));
    InvStep(s, ClientSend(r));
  }

  lemma {:induction false} FirstOpen(s: State, r: Rid, c: nat, p: Path, f: Bytes, i: Ino) returns (t: State)
    requires InFlush(s, r, c, p, f) && |f| > CHUNK && NoLiveUpload(s, p) && i !in s.disk.data
    requires s.calls[r].phase.Waiting? && s.calls[r].chan == [f[..CHUNK]]
    ensures Fair(s, TempOpen(r, i)) && t == Step(s, TempOpen(r, i)) && InFlush(t, r, c, p, f)
    ensures t.calls[r].phase.Writing? && t.calls[r].phase.off == 0 && t.calls[r].chan == [f[..CHUNK]]
  {
    t := Step(s, TempOpen(r, i));
    InvStep(s, TempOpen(r, i));
  }

  lemma {:induction false} FirstWrite(s: State, r: Rid, c: nat, p: Path, f: Bytes) returns (t: State)
    requires InFlush(s, r, c, p, f) && |f| > CHUNK
    requires s.calls[r].phase.Writing? && s.calls[r].phase.off == 0 && s.calls[r].chan == [f[..CHUNK]]
    ensures Fair(s, TempWrite(r)) && t == Step(s, TempWrite(r)) && InFlush(t, r, c, p, f)
    ensures t.calls[r].phase.Writing? && t.calls[r].phase.off == CHUNK
  {
    assert CallOk(s, r, s.calls[r]);
    t := Step(s, TempWrite(r));
    InvStep(s, TempWrite(r));
  }

  lemma {:induction false} LeavesLater(s: State, e: Event, es: seq<Event>, r: Rid, p: Path, bytes: Bytes)
    requires Fair(s, e) && Leaves(Step(s, e), es, r, p, bytes) && e != Commit(r) && !Ends(e, r)
    ensures Leaves(s, [e] + es, r, p, bytes)
  {
    RunCons(s, e, es + [Commit(r)]);
    assert ([e] + es) + [Commit(r)] == [e] + (es + [Commit(r)]);
  }

  /** The first message is written, and then the client dies. */
  lemma {:induction false} AfterWrite(s: State, r: Rid, c: nat, p: Path, f: Bytes)
    requires InFlush(s, r, c, p, f) && |f| > CHUNK
    requires s.calls[r].phase.Writing? && s.calls[r].phase.off == 0 && s.calls[r].chan == [f[..CHUNK]]
    ensures Leaves(s, [TempWrite(r), ClientCrash(c, map[])], r, p, f[..CHUNK])
  {
    var t := FirstWrite(s, r, c, p, f);
    CrashTears(t, r);
    LeavesLater(s, TempWrite(r), [ClientCrash(c, map[])], r, p, f[..CHUNK]);
    assert [TempWrite(r)] + [ClientCrash(c, map[])] == [TempWrite(r), ClientCrash(c, map[])];
  }

  lemma {:induction false} AfterOpen(s: State, r: Rid, c: nat, p: Path, f: Bytes) returns (es: seq<Event>)
    requires InFlush(s, r, c, p, f) && |f| > CHUNK && NoLiveUpload(s, p)
    requires s.calls[r].phase.Waiting? && s.calls[r].chan == [f[..CHUNK]]
    ensures Leaves(s, es, r, p, f[..CHUNK])
  {
    var i := UnusedAbove(s.disk.data.Keys);
    var t := FirstOpen(s, r, c, p, f, i);
    AfterWrite(t, r, c, p, f);
    var rest := [TempWrite(r), ClientCrash(c, map[])];
    LeavesLater(s, TempOpen(r, i), rest, r, p, f[..CHUNK]);
    es := [TempOpen(r, i)] + rest;
  }

  lemma {:induction false} FirstMessageOnly(s: State, r: Rid, c: nat, p: Path, f: Bytes) returns (es: seq<Event>)
    requires InFlush(s, r, c, p, f) && |f| > CHUNK && NoLiveUpload(s, p)
    requires s.calls[r].phase.Waiting? && s.calls[r].chan == [] && s.calls[r].sent == 0 && !s.calls[r].done
    ensures Leaves(s, es, r, p, f[..CHUNK])
  {
    var t := FirstSend(s, r, c, p, f);
    var rest := AfterOpen(t, r, c, p, f);
    LeavesLater(s, ClientSend(r), rest, r, p, f[..CHUNK]);
    es := [ClientSend(r)] + rest;
  }
}
