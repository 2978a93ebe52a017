/** The invariant of the session machine and its preservation by every step. */
module SessionInvariant {
  import opened Options
  import opened Posix
  import opened Chunks
  import opened Session

  /** Path `p` refers to inode `i`: on the server, in a client's cache, or in a download
      under way. */
  ghost predicate Claims(s: State, p: Path, i: Ino) {
    || (p in s.disk.names && s.disk.names[p] == i)
    || (exists c :: 0 <= c < |s.clients| && CachedAs(s.clients[c], p, i))
    || (exists r :: r in s.calls && FetchedAs(s, s.calls[r], p, i))
  }

  predicate CachedAs(k: Client, p: Path, i: Ino) {
    p in k.cache && k.cache[p].ino == i
  }

  predicate FetchedAs(s: State, k: Call, p: Path, i: Ino) {
    k.Download? && Attached(s, k) && k.path == p && k.ino == i
  }

  ghost predicate Single(s: State) {
    forall p, q, i :: Claims(s, p, i) && Claims(s, q, i) ==> p == q
  }

  ghost predicate Known(s: State) {
    forall p, i :: Claims(s, p, i) ==> i in s.disk.data
  }

  ghost predicate ClientOk(s: State, c: nat)
    requires c < |s.clients|
  {
    var k := s.clients[c];
    && k.open <= k.cache.Keys
    && (forall p :: p in k.cache ==> !IsTemp(p) && k.cache[p].ino in k.local)
    && (k.busy.Some? ==>
          k.busy.value in s.calls && s.calls[k.busy.value].client == c && s.calls[k.busy.value].life == k.life)
  }

  function Arrived(s: State, d: Call): Bytes
    requires d.Download?
  {
    if d.count > 0 && d.client < |s.clients| && d.ino in s.clients[d.client].local
    then s.clients[d.client].local[d.ino] else []
  }

  ghost predicate DownloadOk(s: State, r: Rid, d: Call)
    requires d.Download? && d.client < |s.clients|
  {
    && s.clients[d.client].busy == Some(r)
    && !IsTemp(d.path)
    && d.path !in s.clients[d.client].open
    && d.ino in s.disk.data
    && InTransit(s.disk.data[d.ino], Arrived(s, d), d.chan, d.off)
    && (d.count > 0 ==>
          d.path in s.clients[d.client].cache && s.clients[d.client].cache[d.path] == Entry(d.ino, false))
    && SizeOk(d, |s.disk.data[d.ino]|)
  }

  /** The loop variable `sz` is what is left to read, except after the last short piece. */
  ghost predicate SizeOk(d: Call, n: nat)
    requires d.Download?
  {
    && (d.sz == n - d.off || (d.off == n && 0 < d.sz < CHUNK && (d.count > 0 || d.chan != [])))
    && (d.stopped ==> d.off == n && (d.count > 0 || d.chan != []))
  }

  ghost predicate UploadOk(s: State, r: Rid, u: Call)
    requires u.Upload?
  {
    && !IsTemp(u.path)
    && u.size == |u.copy|
    && (Attached(s, u) ==> SourceOk(s.clients[u.client], r, u))
    && u.sent <= |u.copy|
    && (u.done ==> u.sent == |u.copy|)
    && (Served(s, u) && (u.phase.Waiting? || u.phase.Writing?) ==> InTransit(u.copy, Got(u), u.chan, u.sent))
    && (Served(s, u) ==> TempOk(s.disk, u))
  }

  /** The part of the copy that the server has written so far. */
  function Got(u: Call): Bytes
    requires u.Upload?
  {
    if u.phase.Writing? && u.phase.off <= |u.copy| then u.copy[..u.phase.off] else []
  }

  /** The temp file is the upload's own and holds what has arrived. */
  ghost predicate TempOk(disk: Disk, u: Call)
    requires u.Upload?
  {
    match u.phase
    case Writing(tmp, off) =>
      && off <= |u.copy|
      && Temp(u.path) in disk.names && disk.names[Temp(u.path)] == tmp
      && tmp in disk.data && disk.data[tmp] == u.copy[..off]
    case Renamed => Temp(u.path) !in disk.names
    case _ => true
  }

  ghost predicate SourceOk(k: Client, r: Rid, u: Call)
    requires u.Upload?
  {
    && k.busy == Some(r)
    && u.path in k.open
    && u.path in k.cache && k.cache[u.path] == Entry(u.source, true)
    && u.source in k.local && k.local[u.source] == u.copy
  }

  ghost predicate CallOk(s: State, r: Rid, k: Call) {
    && k.client < |s.clients| && k.life <= s.clients[k.client].life && k.epoch <= s.epoch
    && if k.Download? then Attached(s, k) ==> DownloadOk(s, r, k) else UploadOk(s, r, k)
  }

  ghost predicate Exclusive(s: State) {
    forall r, t :: r in s.calls && t in s.calls && r != t && Live(s, s.calls[r]) && Live(s, s.calls[t]) ==>
      s.calls[r].path != s.calls[t].path
  }

  ghost predicate Inv(s: State) {
    && Single(s)
    && Known(s)
    && (forall c :: 0 <= c < |s.clients| ==> ClientOk(s, c))
    && (forall r :: r in s.calls ==> CallOk(s, r, s.calls[r]))
    && Exclusive(s)
  }

  lemma InvInitial(s: State)
    requires Initial(s)
    ensures Inv(s)
  {
  }

  /** One new reference at most, and nobody else refers to its inode. */
  lemma SingleAfter(s: State, t: State, p0: Path, i0: Ino)
    requires Single(s) && Known(s)
    requires forall p, i :: Claims(t, p, i) ==> Claims(s, p, i) || (p == p0 && i == i0)
    requires forall p :: Claims(t, p, i0) ==> p == p0
    requires forall i :: i in s.disk.data ==> i in t.disk.data
    requires i0 in t.disk.data
    ensures Single(t) && Known(t)
  {
  }

  lemma SingleKept(s: State, t: State)
    requires Single(s) && Known(s)
    requires forall p, i :: Claims(t, p, i) ==> Claims(s, p, i)
    requires forall i :: i in s.disk.data ==> i in t.disk.data
    ensures Single(t) && Known(t)
  {
  }


  /** What the invariant of call `k` looks at is the same in `s` and in `t`. */
  ghost predicate Undisturbed(s: State, t: State, k: Call) {
    && k.client < |s.clients| == |t.clients| && s.epoch == t.epoch
    && s.clients[k.client].life == t.clients[k.client].life
    && (k.Download? && Attached(s, k) ==>
          k.ino in s.disk.data && k.ino in t.disk.data && t.disk.data[k.ino] == s.disk.data[k.ino])
    && (k.Upload? && Served(s, k) ==> SameTemp(s.disk, t.disk, k))
    && (Attached(s, k) ==> SameView(s.clients[k.client], t.clients[k.client], k))
  }

  ghost predicate SameTemp(d: Disk, e: Disk, k: Call)
    requires k.Upload?
  {
    && (Temp(k.path) in e.names <==> Temp(k.path) in d.names)
    && (Temp(k.path) in d.names ==> e.names[Temp(k.path)] == d.names[Temp(k.path)])
    && (k.phase.Writing? && k.phase.tmp in d.data ==>
          k.phase.tmp in e.data && e.data[k.phase.tmp] == d.data[k.phase.tmp])
  }

  ghost predicate SameView(a: Client, b: Client, k: Call) {
    var i := if k.Download? then k.ino else k.source;
    && a.busy == b.busy
    && (k.path in a.open <==> k.path in b.open)
    && (k.path in a.cache <==> k.path in b.cache)
    && (k.path in a.cache ==> a.cache[k.path] == b.cache[k.path])
    && (i in a.local <==> i in b.local)
    && (i in a.local ==> a.local[i] == b.local[i])
  }

  lemma CallKept(s: State, t: State, x: Rid, k: Call)
    requires CallOk(s, x, k)
    requires Undisturbed(s, t, k)
    ensures CallOk(t, x, k)
  {
  }

  /** An active call is the one its client is busy with. */
  lemma OneCall(s: State, r: Rid, x: Rid)
    requires Inv(s)
    requires r in s.calls && x in s.calls && s.calls[r].client == s.calls[x].client
    requires Attached(s, s.calls[r]) && Attached(s, s.calls[x])
    ensures r == x
  {
    assert CallOk(s, r, s.calls[r]);
    assert CallOk(s, x, s.calls[x]);
  }

  /** A user path and the temp name of an upload never name the same inode. */
  lemma TempApart(s: State, r: Rid, p: Path, i: Ino)
    requires Inv(s) && Uploads(s, r) && Served(s, s.calls[r]) && s.calls[r].phase.Writing?
    requires Claims(s, p, i) && p != Temp(s.calls[r].path)
    ensures i != s.calls[r].phase.tmp
  {
    assert CallOk(s, r, s.calls[r]);
    assert Claims(s, Temp(s.calls[r].path), s.calls[r].phase.tmp);
  }


  lemma WriteApart(s: State, c: nat, p: Path, x: Rid)
    requires Inv(s) && c < |s.clients| && p in s.clients[c].open && !Uploading(s, c, p)
    requires p in s.clients[c].cache
    requires x in s.calls && s.calls[x].client == c && Attached(s, s.calls[x])
    ensures s.calls[x].path != p
    ensures (if s.calls[x].Download? then s.calls[x].ino else s.calls[x].source) != s.clients[c].cache[p].ino
  {
    var k := s.calls[x];
    assert CallOk(s, x, k);
    assert CachedAs(s.clients[c], p, s.clients[c].cache[p].ino);
    assert Claims(s, p, s.clients[c].cache[p].ino);
    if k.Download? {
      assert FetchedAs(s, k, k.path, k.ino);
      assert Claims(s, k.path, k.ino);
    } else {
      assert k.path != p;
      assert CachedAs(s.clients[c], k.path, k.source);
      assert Claims(s, k.path, k.source);
    }
  }

  /** The upload `u` after one turn of the client's loop. */
  function AfterTurn(u: Call): Call
    requires u.Upload?
  {
    var m := UploadTurn(u.copy, |u.copy|, u.sent);
    if m == [] then u.(done := true) else u.(sent := u.sent + |m|, chan := u.chan + [m])
  }

  lemma {:induction false} AfterTurnTransit(u: Call)
    requires u.Upload? && u.sent <= |u.copy|
    requires u.phase.Waiting? || u.phase.Writing?
    requires InTransit(u.copy, Got(u), u.chan, u.sent)
    ensures InTransit(u.copy, Got(u), AfterTurn(u).chan, AfterTurn(u).sent)
  {
    UploadTurnOk(u.copy, Got(u), u.chan, u.sent);
  }

  lemma {:induction false} AfterTurnLength(u: Call)
    requires u.Upload? && u.sent <= |u.copy|
    ensures AfterTurn(u).sent <= |u.copy| && (AfterTurn(u).done && !u.done ==> u.sent == |u.copy|)
  {
  }

  lemma {:induction false} ClientSendSelf(s: State, r: Rid)
    requires Inv(s) && Fair(s, ClientSend(r))
    ensures CallOk(Step(s, ClientSend(r)), r, Step(s, ClientSend(r)).calls[r])
  {
    var u := s.calls[r];
    assert CallOk(s, r, u);
    assert SourceOk(s.clients[u.client], r, u);
    AfterTurnLength(u);
    var v := AfterTurn(u);
    assert Step(s, ClientSend(r)) == WithCall(s, r, v);
    if Served(s, u) && (u.phase.Waiting? || u.phase.Writing?) {
      AfterTurnTransit(u);
    }
    SendKeeps(s, r, u, v);
  }

  lemma {:induction false} SendKeeps(s: State, r: Rid, u: Call, v: Call)
    requires CallOk(s, r, u) && u.Upload? && Attached(s, u) && v.Upload?
    requires v == u.(sent := v.sent, chan := v.chan, done := v.done)
    requires v.sent <= |u.copy| && (v.done ==> v.sent == |u.copy|)
    requires Served(s, u) && (u.phase.Waiting? || u.phase.Writing?) ==> InTransit(u.copy, Got(u), v.chan, v.sent)
    ensures CallOk(WithCall(s, r, v), r, v)
  {
    assert SourceOk(s.clients[u.client], r, v);
  }

  lemma TempOpenApart(s: State, r: Rid, unused: Ino, x: Rid)
    requires Inv(s) && Fair(s, TempOpen(r, unused)) && x in s.calls && x != r
    ensures CallOk(Step(s, TempOpen(r, unused)), x, s.calls[x])
  {
    var t := Step(s, TempOpen(r, unused));
    var u, k := s.calls[r], s.calls[x];
    assert CallOk(s, r, u);
    assert CallOk(s, x, k);
    if k.Download? && Attached(s, k) {
      assert FetchedAs(s, k, k.path, k.ino);
      assert Claims(s, k.path, k.ino);
      if Temp(u.path) in s.disk.names {
        assert Claims(s, Temp(u.path), s.disk.names[Temp(u.path)]);
      }
      CallKept(s, t, x, k);
    } else if Live(s, k) {
      if Temp(k.path) == Temp(u.path) {
        TempInjective(k.path, u.path);
      }
      if k.phase.Writing? && Temp(u.path) in s.disk.names {
        TempApart(s, x, Temp(u.path), s.disk.names[Temp(u.path)]);
      }
      CallKept(s, t, x, k);
    }
  }

  lemma ServerSendSelf(s: State, r: Rid)
    requires Inv(s) && Fair(s, ServerSend(r))
    ensures CallOk(Step(s, ServerSend(r)), r, Step(s, ServerSend(r)).calls[r])
  {
    var d := s.calls[r];
    var f := s.disk.data[d.ino];
    assert CallOk(s, r, d);
    if Attached(s, d) {
      DownloadTurnOk(f, Arrived(s, d), d.chan, d.sz, d.off);
    }
  }

  lemma ClientReceiveSelf(s: State, r: Rid)
    requires Inv(s) && Fair(s, ClientReceive(r))
    ensures CallOk(Step(s, ClientReceive(r)), r, Step(s, ClientReceive(r)).calls[r])
  {
    var d := s.calls[r];
    assert CallOk(s, r, d);
    WriteAtEnd(Arrived(s, d), d.chan[0]);
  }

  lemma TempWriteSelf(s: State, r: Rid)
    requires Inv(s) && Fair(s, TempWrite(r))
    ensures CallOk(Step(s, TempWrite(r)), r, Step(s, TempWrite(r)).calls[r])
  {
    var u := s.calls[r];
    assert CallOk(s, r, u);
    InTransitOffset(u.copy, Got(u), u.chan, u.sent);
    WriteAtEnd(s.disk.data[u.phase.tmp], u.chan[0]);
    assert u.copy[..u.phase.off] + u.chan[0] == u.copy[..u.phase.off + |u.chan[0]|];
  }

  lemma TempWriteApart(s: State, r: Rid, x: Rid)
    requires Inv(s) && Fair(s, TempWrite(r)) && x in s.calls && x != r
    ensures Undisturbed(s, Step(s, TempWrite(r)), s.calls[x])
  {
    var u, k := s.calls[r], s.calls[x];
    assert CallOk(s, r, u);
    assert CallOk(s, x, k);
    if k.Download? && Attached(s, k) {
      assert FetchedAs(s, k, k.path, k.ino);
      TempApart(s, r, k.path, k.ino);
    } else if k.Upload? && Served(s, k) && k.phase.Writing? {
      assert Live(s, u) && Live(s, k);
      if Temp(k.path) == Temp(u.path) {
        TempInjective(k.path, u.path);
      }
      assert Claims(s, Temp(k.path), k.phase.tmp);
      TempApart(s, r, Temp(k.path), k.phase.tmp);
    }
  }

  lemma CommitApart(s: State, r: Rid, x: Rid)
    requires Inv(s) && Fair(s, Commit(r)) && x in s.calls && x != r
    ensures CallOk(Step(s, Commit(r)), x, s.calls[x])
  {
    var t := Step(s, Commit(r));
    var u, k := s.calls[r], s.calls[x];
    assert CallOk(s, r, u);
    assert CallOk(s, x, k);
    if k.Download? || Live(s, k) {
      assert Live(s, u);
      if Temp(k.path) == Temp(u.path) {
        TempInjective(k.path, u.path);
      }
      CallKept(s, t, x, k);
    }
  }

  /** After the rename, the committed inode is known by the user path alone. */
  lemma CommitClaims(s: State, r: Rid)
    requires Inv(s) && Fair(s, Commit(r))
    ensures forall x :: Claims(Step(s, Commit(r)), x, s.calls[r].phase.tmp) ==> x == s.calls[r].path
    ensures s.calls[r].phase.tmp in s.disk.data
  {
    var t := Step(s, Commit(r));
    var u := s.calls[r];
    assert CallOk(s, r, u);
    assert Claims(s, Temp(u.path), u.phase.tmp);
    forall c | 0 <= c < |t.clients|
      ensures !CachedAs(t.clients[c], Temp(u.path), u.phase.tmp)
    {
      assert ClientOk(s, c);
    }
    forall y | y in t.calls
      ensures !FetchedAs(t, t.calls[y], Temp(u.path), u.phase.tmp)
    {
      assert CallOk(s, y, s.calls[y]);
    }
    forall x | Claims(t, x, u.phase.tmp)
      ensures x == u.path
    {
      if x != u.path {
        assert Claims(s, x, u.phase.tmp);
      }
    }
  }

  lemma CreateApart(s: State, c: nat, p: Path, unused: Ino, x: Rid)
    requires Inv(s) && Fair(s, CreateFile(c, p, unused)) && x in s.calls
    ensures Undisturbed(s, Step(s, CreateFile(c, p, unused)), s.calls[x])
  {
    var k := s.calls[x];
    assert CallOk(s, x, k);
    if k.Download? && Attached(s, k) {
      assert FetchedAs(s, k, k.path, k.ino);
      assert Claims(s, k.path, k.ino);
    }
  }

  /** A rename moves a name and at most one cache entry, and nobody else knows the old name. */
  lemma RenameClaim(s: State, c: nat, p: Path, q: Path, x: Path, i: Ino)
    requires Inv(s) && Fair(s, RenameFile(c, p, q)) && Claims(Step(s, RenameFile(c, p, q)), x, i)
    ensures Claims(s, x, i) || (x == q && Claims(s, p, i))
    ensures p != q ==> x != p
  {
  }

  lemma RenameSingle(s: State, c: nat, p: Path, q: Path)
    requires Inv(s) && Fair(s, RenameFile(c, p, q))
    ensures Single(Step(s, RenameFile(c, p, q))) && Known(Step(s, RenameFile(c, p, q)))
  {
    var t := Step(s, RenameFile(c, p, q));
    forall x, y, i | Claims(t, x, i) && Claims(t, y, i)
      ensures x == y && i in t.disk.data
    {
      RenameClaim(s, c, p, q, x, i);
      RenameClaim(s, c, p, q, y, i);
    }
  }

  /** Only calls changed, and none of them changed hands. */
  lemma ClientsKept(s: State, t: State)
    requires forall c :: 0 <= c < |s.clients| ==> ClientOk(s, c)
    requires t.clients == s.clients
    requires forall r :: r in s.calls ==>
      r in t.calls && t.calls[r].client == s.calls[r].client && t.calls[r].life == s.calls[r].life
    ensures forall c :: 0 <= c < |t.clients| ==> ClientOk(t, c)
  {
    forall c | 0 <= c < |t.clients|
      ensures ClientOk(t, c)
    {
      assert ClientOk(s, c);
    }
  }

  /** No upload became live. */
  lemma ExclusiveKept(s: State, t: State)
    requires Exclusive(s)
    requires forall r :: r in t.calls && Live(t, t.calls[r]) ==>
      r in s.calls && Live(s, s.calls[r]) && t.calls[r].path == s.calls[r].path
    ensures Exclusive(t)
  {
  }

  lemma OpenBeginOk(s: State, c: nat, p: Path, r: Rid)
    requires Inv(s) && Fair(s, OpenBegin(c, p, r))
    ensures Inv(Step(s, OpenBegin(c, p, r)))
  {
    var t := Step(s, OpenBegin(c, p, r));
    SingleKept(s, t);
    forall d | 0 <= d < |t.clients|
      ensures ClientOk(t, d)
    {
      assert ClientOk(s, d);
    }
    assert s.disk.Content(p)[..0] == [];
    assert Claims(s, p, s.disk.names[p]);
    forall x | x in t.calls
      ensures CallOk(t, x, t.calls[x])
    {
      if x != r {
        assert CallOk(s, x, s.calls[x]);
        CallKept(s, t, x, s.calls[x]);
      }
    }
  }

  lemma ServerSendOk(s: State, r: Rid)
    requires Inv(s) && Fair(s, ServerSend(r))
    ensures Inv(Step(s, ServerSend(r)))
  {
    var t := Step(s, ServerSend(r));
    SingleKept(s, t);
    ClientsKept(s, t);
    ServerSendSelf(s, r);
    forall x | x in t.calls
      ensures CallOk(t, x, t.calls[x])
    {
      if x != r {
        assert CallOk(s, x, s.calls[x]);
        CallKept(s, t, x, s.calls[x]);
      }
    }
  }

  lemma ClientReceiveClients(s: State, r: Rid)
    requires Inv(s) && Fair(s, ClientReceive(r))
    ensures forall d :: 0 <= d < |s.clients| ==> ClientOk(Step(s, ClientReceive(r)), d)
  {
    var t := Step(s, ClientReceive(r));
    assert CallOk(s, r, s.calls[r]);
    forall d | 0 <= d < |t.clients|
      ensures ClientOk(t, d)
    {
      assert ClientOk(s, d);
    }
  }

  lemma ClientReceiveOk(s: State, r: Rid)
    requires Inv(s) && Fair(s, ClientReceive(r))
    ensures Inv(Step(s, ClientReceive(r)))
  {
    var t := Step(s, ClientReceive(r));
    var d := s.calls[r];
    assert CallOk(s, r, d);
    assert Claims(s, d.path, d.ino) by {
      assert FetchedAs(s, d, d.path, d.ino);
    }
    SingleKept(s, t);
    ClientReceiveClients(s, r);
    ClientReceiveCalls(s, r);
    ExclusiveKept(s, t);
  }

  lemma {:induction false} ClientReceiveCalls(s: State, r: Rid)
    requires Inv(s) && Fair(s, ClientReceive(r))
    ensures var t := Step(s, ClientReceive(r));
            forall x :: x in t.calls ==> CallOk(t, x, t.calls[x])
  {
    var t := Step(s, ClientReceive(r));
    ClientReceiveSelf(s, r);
    forall x | x in t.calls
      ensures CallOk(t, x, t.calls[x])
    {
      if x != r {
        assert CallOk(s, x, s.calls[x]);
        if s.calls[x].client == s.calls[r].client && Attached(s, s.calls[x]) {
          OneCall(s, r, x);
        }
        CallKept(s, t, x, s.calls[x]);
      }
    }
  }

  lemma OpenEndClients(s: State, r: Rid)
    requires Inv(s) && Fair(s, OpenEnd(r))
    ensures forall d :: 0 <= d < |s.clients| ==> ClientOk(Step(s, OpenEnd(r)), d)
  {
    var t := Step(s, OpenEnd(r));
    assert CallOk(s, r, s.calls[r]);
    forall d | 0 <= d < |t.clients|
      ensures ClientOk(t, d)
    {
      assert ClientOk(s, d);
    }
  }

  lemma OpenEndOk(s: State, r: Rid)
    requires Inv(s) && Fair(s, OpenEnd(r))
    ensures Inv(Step(s, OpenEnd(r)))
  {
    var t := Step(s, OpenEnd(r));
    assert CallOk(s, r, s.calls[r]);
    SingleKept(s, t);
    OpenEndClients(s, r);
    forall x | x in t.calls
      ensures CallOk(t, x, t.calls[x])
    {
      assert CallOk(s, x, s.calls[x]);
      if s.calls[x].client == s.calls[r].client && Attached(s, s.calls[x]) {
        OneCall(s, r, x);
      }
      CallKept(s, t, x, s.calls[x]);
    }
  }

  lemma LocalWriteOk(s: State, c: nat, p: Path, off: nat, data: Bytes)
    requires Inv(s) && Fair(s, LocalWrite(c, p, off, data))
    ensures Inv(Step(s, LocalWrite(c, p, off, data)))
  {
    var t := Step(s, LocalWrite(c, p, off, data));
    SingleKept(s, t);
    forall d | 0 <= d < |t.clients|
      ensures ClientOk(t, d)
    {
      assert ClientOk(s, d);
    }
    forall x | x in t.calls
      ensures CallOk(t, x, t.calls[x])
    {
      assert CallOk(s, x, s.calls[x]);
      if s.calls[x].client == c && Attached(s, s.calls[x]) {
        WriteApart(s, c, p, x);
      }
      CallKept(s, t, x, s.calls[x]);
    }
  }

  lemma FlushBeginOk(s: State, c: nat, p: Path, r: Rid)
    requires Inv(s) && Fair(s, FlushBegin(c, p, r))
    ensures Inv(Step(s, FlushBegin(c, p, r)))
  {
    var t := Step(s, FlushBegin(c, p, r));
    SingleKept(s, t);
    forall d | 0 <= d < |t.clients|
      ensures ClientOk(t, d)
    {
      assert ClientOk(s, d);
    }
    assert ClientOk(s, c);
    assert t.calls[r].copy[..0] == [];
    ExclusiveKept(s, t);
    forall x | x in t.calls
      ensures CallOk(t, x, t.calls[x])
    {
      if x != r {
        assert CallOk(s, x, s.calls[x]);
        CallKept(s, t, x, s.calls[x]);
      }
    }
  }

  lemma ClientSendOk(s: State, r: Rid)
    requires Inv(s) && Fair(s, ClientSend(r))
    ensures Inv(Step(s, ClientSend(r)))
  {
    var t := Step(s, ClientSend(r));
    SingleKept(s, t);
    ClientsKept(s, t);
    ClientSendSelf(s, r);
    ExclusiveKept(s, t);
    forall x | x in t.calls
      ensures CallOk(t, x, t.calls[x])
    {
      if x != r {
        assert CallOk(s, x, s.calls[x]);
        CallKept(s, t, x, s.calls[x]);
      }
    }
  }

  lemma {:induction false} TempOpenClaims(s: State, r: Rid, unused: Ino)
    requires Fair(s, TempOpen(r, unused))
    ensures var t := Step(s, TempOpen(r, unused));
            forall p, i :: Claims(t, p, i) ==> Claims(s, p, i) || (p == Temp(s.calls[r].path) && i == t.calls[r].phase.tmp)
  {
    var t := Step(s, TempOpen(r, unused));
    forall p, i | Claims(t, p, i)
      ensures Claims(s, p, i) || (p == Temp(s.calls[r].path) && i == t.calls[r].phase.tmp)
    {
    }
  }

  lemma TempOpenOk(s: State, r: Rid, unused: Ino)
    requires Inv(s) && Fair(s, TempOpen(r, unused))
    ensures Inv(Step(s, TempOpen(r, unused)))
  {
    var t := Step(s, TempOpen(r, unused));
    var u := s.calls[r];
    assert CallOk(s, r, u);
    var tmp := t.calls[r].phase.tmp;
    assert u.copy[..0] == [];
    TempOpenClaims(s, r, unused);
    if Temp(u.path) in s.disk.names {
      assert Claims(s, Temp(u.path), tmp);
    }
    SingleAfter(s, t, Temp(u.path), tmp);
    ClientsKept(s, t);
    TempOpenCalls(s, r, unused);
  }

  lemma {:induction false} TempOpenCalls(s: State, r: Rid, unused: Ino)
    requires Inv(s) && Fair(s, TempOpen(r, unused))
    ensures var t := Step(s, TempOpen(r, unused));
            forall x :: x in t.calls ==> CallOk(t, x, t.calls[x])
  {
    var t := Step(s, TempOpen(r, unused));
    assert CallOk(s, r, s.calls[r]);
    assert s.calls[r].copy[..0] == [];
    forall x | x in t.calls
      ensures CallOk(t, x, t.calls[x])
    {
      if x != r {
        assert CallOk(s, x, s.calls[x]);
        TempOpenApart(s, r, unused, x);
      }
    }
  }

  lemma TempWriteOk(s: State, r: Rid)
    requires Inv(s) && Fair(s, TempWrite(r))
    ensures Inv(Step(s, TempWrite(r)))
  {
    var t := Step(s, TempWrite(r));
    var u := s.calls[r];
    assert CallOk(s, r, u);
    SingleKept(s, t);
    ClientsKept(s, t);
    TempWriteSelf(s, r);
    ExclusiveKept(s, t);
    forall x | x in t.calls
      ensures CallOk(t, x, t.calls[x])
    {
      if x != r {
        assert CallOk(s, x, s.calls[x]);
        TempWriteApart(s, r, x);
        CallKept(s, t, x, s.calls[x]);
      }
    }
  }

  lemma CommitOk(s: State, r: Rid)
    requires Inv(s) && Fair(s, Commit(r))
    ensures Inv(Step(s, Commit(r)))
  {
    var t := Step(s, Commit(r));
    var u := s.calls[r];
    assert CallOk(s, r, u);
    CommitClaims(s, r);
    SingleAfter(s, t, u.path, u.phase.tmp);
    ClientsKept(s, t);
    ExclusiveKept(s, t);
    forall x | x in t.calls
      ensures CallOk(t, x, t.calls[x])
    {
      if x != r {
        assert CallOk(s, x, s.calls[x]);
        CommitApart(s, r, x);
      }
    }
  }

  lemma TempUnlinkOk(s: State, r: Rid)
    requires Inv(s) && Fair(s, TempUnlink(r))
    ensures Inv(Step(s, TempUnlink(r)))
  {
    var t := Step(s, TempUnlink(r));
    SingleKept(s, t);
    ClientsKept(s, t);
    assert CallOk(s, r, s.calls[r]);
    ExclusiveKept(s, t);
    forall x | x in t.calls
      ensures CallOk(t, x, t.calls[x])
    {
      if x != r {
        assert CallOk(s, x, s.calls[x]);
        assert t.disk.names == s.disk.names;
        CallKept(s, t, x, s.calls[x]);
      }
    }
  }

  lemma NothingSentOk(s: State, r: Rid)
    requires Inv(s) && Fair(s, NothingSent(r))
    ensures Inv(Step(s, NothingSent(r)))
  {
    var t := Step(s, NothingSent(r));
    SingleKept(s, t);
    ClientsKept(s, t);
    assert CallOk(s, r, s.calls[r]);
    ExclusiveKept(s, t);
    forall x | x in t.calls
      ensures CallOk(t, x, t.calls[x])
    {
      if x != r {
        assert CallOk(s, x, s.calls[x]);
        CallKept(s, t, x, s.calls[x]);
      }
    }
  }

  lemma FlushEndClients(s: State, r: Rid, status: int)
    requires Inv(s) && Fair(s, FlushEnd(r, status))
    ensures forall d :: 0 <= d < |s.clients| ==> ClientOk(Step(s, FlushEnd(r, status)), d)
  {
    var t := Step(s, FlushEnd(r, status));
    assert CallOk(s, r, s.calls[r]);
    forall d | 0 <= d < |t.clients|
      ensures ClientOk(t, d)
    {
      assert ClientOk(s, d);
    }
  }

  lemma FlushEndOk(s: State, r: Rid, status: int)
    requires Inv(s) && Fair(s, FlushEnd(r, status))
    ensures Inv(Step(s, FlushEnd(r, status)))
  {
    var t := Step(s, FlushEnd(r, status));
    assert CallOk(s, r, s.calls[r]);
    SingleKept(s, t);
    FlushEndClients(s, r, status);
    forall x | x in t.calls
      ensures CallOk(t, x, t.calls[x])
    {
      assert CallOk(s, x, s.calls[x]);
      if s.calls[x].client == s.calls[r].client && Attached(s, s.calls[x]) {
        OneCall(s, r, x);
      }
      CallKept(s, t, x, s.calls[x]);
    }
  }

  lemma CreateFileOk(s: State, c: nat, p: Path, unused: Ino)
    requires Inv(s) && Fair(s, CreateFile(c, p, unused))
    ensures Inv(Step(s, CreateFile(c, p, unused)))
  {
    var t := Step(s, CreateFile(c, p, unused));
    SingleAfter(s, t, p, unused);
    forall d | 0 <= d < |t.clients|
      ensures ClientOk(t, d)
    {
      assert ClientOk(s, d);
    }
    forall x | x in t.calls
      ensures CallOk(t, x, t.calls[x])
    {
      assert CallOk(s, x, s.calls[x]);
      CreateApart(s, c, p, unused, x);
      CallKept(s, t, x, s.calls[x]);
    }
  }

  lemma DeleteFileOk(s: State, c: nat, p: Path)
    requires Inv(s) && Fair(s, DeleteFile(c, p))
    ensures Inv(Step(s, DeleteFile(c, p)))
  {
    var t := Step(s, DeleteFile(c, p));
    SingleKept(s, t);
    forall d | 0 <= d < |t.clients|
      ensures ClientOk(t, d)
    {
      assert ClientOk(s, d);
    }
    forall x | x in t.calls
      ensures CallOk(t, x, t.calls[x])
    {
      assert CallOk(s, x, s.calls[x]);
      CallKept(s, t, x, s.calls[x]);
    }
  }

  lemma RenameFileOk(s: State, c: nat, p: Path, q: Path)
    requires Inv(s) && Fair(s, RenameFile(c, p, q))
    ensures Inv(Step(s, RenameFile(c, p, q)))
  {
    var t := Step(s, RenameFile(c, p, q));
    forall d | 0 <= d < |t.clients|
      ensures ClientOk(t, d)
    {
      assert ClientOk(s, d);
    }
    RenameSingle(s, c, p, q);
    forall x | x in t.calls
      ensures CallOk(t, x, t.calls[x])
    {
      assert CallOk(s, x, s.calls[x]);
      CallKept(s, t, x, s.calls[x]);
    }
  }

  lemma ReleaseFileOk(s: State, c: nat, p: Path)
    requires Inv(s) && Fair(s, ReleaseFile(c, p))
    ensures Inv(Step(s, ReleaseFile(c, p)))
  {
    var t := Step(s, ReleaseFile(c, p));
    SingleKept(s, t);
    forall d | 0 <= d < |t.clients|
      ensures ClientOk(t, d)
    {
      assert ClientOk(s, d);
    }
    forall x | x in t.calls
      ensures CallOk(t, x, t.calls[x])
    {
      assert CallOk(s, x, s.calls[x]);
      CallKept(s, t, x, s.calls[x]);
    }
  }

  lemma ServerCrashOk(s: State)
    requires Inv(s) && Fair(s, ServerCrash)
    ensures Inv(Step(s, ServerCrash))
  {
    var t := Step(s, ServerCrash);
    SingleKept(s, t);
    ClientsKept(s, t);
    forall x | x in t.calls
      ensures CallOk(t, x, t.calls[x])
    {
      assert CallOk(s, x, s.calls[x]);
    }
  }

  lemma ClientCrashOk(s: State, c: nat, reloaded: map<Path, Entry>)
    requires Inv(s) && Fair(s, ClientCrash(c, reloaded))
    ensures Inv(Step(s, ClientCrash(c, reloaded)))
  {
    var t := Step(s, ClientCrash(c, reloaded));
    SingleKept(s, t);
    forall d | 0 <= d < |t.clients|
      ensures ClientOk(t, d)
    {
      assert ClientOk(s, d);
    }
    forall x | x in t.calls
      ensures CallOk(t, x, t.calls[x])
    {
      if s.calls[x].client != c {
        assert CallOk(s, x, s.calls[x]);
        CallKept(s, t, x, s.calls[x]);
      } else {
        assert CallOk(s, x, s.calls[x]);
      }
    }
  }

  /** Every step the code can take, under what it relies on, keeps the invariant. */
  lemma InvStep(s: State, e: Event)
    requires Inv(s) && Fair(s, e)
    ensures Inv(Step(s, e))
  {
    hide Inv, Fair;
    match e
    case OpenBegin(c, p, r) => OpenBeginOk(s, c, p, r);
    case ServerSend(r) => ServerSendOk(s, r);
    case ClientReceive(r) => ClientReceiveOk(s, r);
    case OpenEnd(r) => OpenEndOk(s, r);
    case LocalWrite(c, p, off, data) => LocalWriteOk(s, c, p, off, data);
    case FlushBegin(c, p, r) => FlushBeginOk(s, c, p, r);
    case ClientSend(r) => ClientSendOk(s, r);
    case TempOpen(r, unused) => TempOpenOk(s, r, unused);
    case TempWrite(r) => TempWriteOk(s, r);
    case Commit(r) => CommitOk(s, r);
    case TempUnlink(r) => TempUnlinkOk(s, r);
    case NothingSent(r) => NothingSentOk(s, r);
    case FlushEnd(r, status) => FlushEndOk(s, r, status);
    case CreateFile(c, p, unused) => CreateFileOk(s, c, p, unused);
    case DeleteFile(c, p) => DeleteFileOk(s, c, p);
    case RenameFile(c, p, q) => RenameFileOk(s, c, p, q);
    case ReleaseFile(c, p) => ReleaseFileOk(s, c, p);
    case ServerCrash => ServerCrashOk(s);
    case ClientCrash(c, reloaded) => ClientCrashOk(s, c, reloaded);
  }

  lemma {:induction false} InvRun(s: State, es: seq<Event>)
    requires Inv(s) && IsRun(s, es)
    ensures Inv(Run(s, es))
    decreases |es|
  {
    if es != [] {
      InvStep(s, es[0]);
      InvRun(Step(s, es[0]), es[1..]);
    }
  }
}
