/** Every step of the session machine is one act of the specification or none. */
module SessionRefinement {
  import opened Posix
  import opened Chunks
  import opened Session
  import opened SessionInvariant
  import S = SessionSpec

  // ----- what a user sees of a state --------------------------------------------

  /** The store shows the user paths of the disk. */
  ghost predicate PathShown(disk: Disk, store: map<Path, Bytes>, p: Path) {
    if p in disk.names && !IsTemp(p)
    then disk.names[p] in disk.data && p in store && store[p] == disk.data[disk.names[p]]
    else p !in store
  }

  /** A handle shows the local file that the cache entry names. */
  ghost predicate HandleShown(k: Client, h: map<Path, S.Copy>, p: Path) {
    if p in k.open
    then p in k.cache && k.cache[p].ino in k.local && p in h &&
         h[p] == S.Copy(k.local[k.cache[p].ino], k.cache[p].dirty)
    else p !in h
  }

  /** A download under way is a snapshot: the bytes of the inode it was opened on. */
  ghost predicate FetchShown(s: State, fetches: map<Rid, S.Fetch>, r: Rid) {
    && (r in fetches ==> Downloads(s, r))
    && (Downloads(s, r) && Attached(s, s.calls[r]) ==>
          var d := s.calls[r];
          d.ino in s.disk.data && r in fetches &&
          fetches[r] == S.Fetch(d.client, d.life, d.epoch, d.path, s.disk.data[d.ino]))
  }

  predicate Unsettled(k: Call) {
    k.Upload? && (k.phase.Waiting? || k.phase.Writing?)
  }

  ghost predicate FlushShown(s: State, flushes: map<Rid, S.Flush>, r: Rid) {
    if r in s.calls && Unsettled(s.calls[r])
    then var u := s.calls[r];
         r in flushes && flushes[r] == S.Flush(u.client, u.life, u.epoch, u.path, u.copy)
    else r !in flushes
  }

  ghost predicate StoreShown(disk: Disk, store: map<Path, Bytes>) {
    forall p :: PathShown(disk, store, p)
  }

  ghost predicate HandlesShown(k: Client, h: map<Path, S.Copy>) {
    forall p :: HandleShown(k, h, p)
  }

  ghost predicate AllHandlesShown(ks: seq<Client>, hs: seq<map<Path, S.Copy>>) {
    |hs| == |ks| && forall c :: 0 <= c < |ks| ==> HandlesShown(ks[c], hs[c])
  }

  ghost predicate CallsShown(s: State, fetches: map<Rid, S.Fetch>, flushes: map<Rid, S.Flush>) {
    && (forall r :: FetchShown(s, fetches, r))
    && (forall r :: FlushShown(s, flushes, r))
  }

  ghost predicate LivesShown(ks: seq<Client>, lives: seq<nat>) {
    |lives| == |ks| && forall c :: 0 <= c < |ks| ==> lives[c] == ks[c].life
  }

  /** `a` is exactly what users see of `s`. */
  ghost predicate Shows(s: State, a: S.Spec) {
    && StoreShown(s.disk, a.store)
    && AllHandlesShown(s.clients, a.handles)
    && CallsShown(s, a.fetches, a.flushes)
    && s.epoch == a.epoch
    && LivesShown(s.clients, a.lives)
  }

  /** What a user sees of a step. */
  function Label(s: State, e: Event): S.Act
    requires Enabled(s, e)
  {
    match e
    case OpenBegin(c, p, r) => S.TakeSnapshot(c, p, r)
    case OpenEnd(r) => if s.calls[r].count > 0 then S.Opened(r, |Arrived(s, s.calls[r])|) else S.OpenLost(r)
    case LocalWrite(c, p, off, data) => S.Write(c, p, off, data)
    case FlushBegin(c, p, r) => S.StartFlush(c, p, r)
    case Commit(r) => S.Publish(r, s.calls[r].phase.off)
    case NothingSent(r) => S.Abandon(r)
    case FlushEnd(r, _) => if Unsettled(s.calls[r]) then S.Abandon(r) else S.Internal
    case CreateFile(c, p, _) => S.Create(c, p)
    case DeleteFile(_, p) => S.Delete(p)
    case RenameFile(_, p, q) => S.Rename(p, q)
    case ReleaseFile(c, p) => S.Release(c, p)
    case ServerCrash => S.CrashServer
    case ClientCrash(c, _) => S.CrashClient(c)
    case _ => S.Internal
  }

  // ----- one change at a time -----------------------------------------------------

  lemma SameStore(d: Disk, e: Disk, store: map<Path, Bytes>)
    requires StoreShown(d, store)
    requires forall p :: !IsTemp(p) ==> (p in d.names <==> p in e.names)
    requires forall p :: !IsTemp(p) && p in d.names ==>
      e.names[p] == d.names[p] && d.names[p] in d.data && d.names[p] in e.data && e.data[d.names[p]] == d.data[d.names[p]]
    ensures StoreShown(e, store)
  {
    forall p
      ensures PathShown(e, store, p)
    {
      assert PathShown(d, store, p);
    }
  }

  lemma OneClient(ks: seq<Client>, hs: seq<map<Path, S.Copy>>, c: nat, k: Client, h: map<Path, S.Copy>)
    requires AllHandlesShown(ks, hs) && c < |ks| && HandlesShown(k, h)
    ensures AllHandlesShown(ks[c := k], hs[c := h])
    ensures h == hs[c] ==> AllHandlesShown(ks[c := k], hs)
  {
    if h == hs[c] {
      assert hs[c := h] == hs;
    }
  }

  /** Handles see a client through its open paths only. */
  lemma SameHandles(k: Client, l: Client, h: map<Path, S.Copy>)
    requires HandlesShown(k, h) && l.open == k.open
    requires forall p :: p in k.open && p in k.cache ==> p in l.cache && l.cache[p] == k.cache[p]
    requires forall p :: p in k.open && p in k.cache && k.cache[p].ino in k.local ==>
             k.cache[p].ino in l.local && l.local[k.cache[p].ino] == k.local[k.cache[p].ino]
    ensures HandlesShown(l, h)
  {
    forall p
      ensures HandleShown(l, h, p)
    {
      assert HandleShown(k, h, p);
    }
  }

  /** One call changes; everything the others show stays. */
  lemma OneCallChanged(s: State, t: State, a: S.Spec, b: S.Spec, r: Rid)
    requires Shows(s, a) && |t.clients| == |s.clients|
    requires forall x :: x != r ==> (x in t.calls <==> x in s.calls) && (x in s.calls ==> t.calls[x] == s.calls[x])
    requires forall c :: 0 <= c < |s.clients| ==> t.clients[c].life == s.clients[c].life
    requires forall x :: x != r && Downloads(s, x) && Attached(s, s.calls[x]) && s.calls[x].ino in s.disk.data ==>
      s.calls[x].ino in t.disk.data && t.disk.data[s.calls[x].ino] == s.disk.data[s.calls[x].ino]
    requires forall x :: x != r ==> (x in b.fetches <==> x in a.fetches) && (x in a.fetches ==> b.fetches[x] == a.fetches[x])
    requires forall x :: x != r ==> (x in b.flushes <==> x in a.flushes) && (x in a.flushes ==> b.flushes[x] == a.flushes[x])
    requires FetchShown(t, b.fetches, r) && FlushShown(t, b.flushes, r)
    ensures CallsShown(t, b.fetches, b.flushes)
  {
    forall x
      ensures FetchShown(t, b.fetches, x) && FlushShown(t, b.flushes, x)
    {
      assert FetchShown(s, a.fetches, x) && FlushShown(s, a.flushes, x);
    }
  }

  /** No call changes. */
  lemma SameCalls(s: State, t: State, a: S.Spec)
    requires Shows(s, a) && t.calls == s.calls && |t.clients| == |s.clients|
    requires forall c :: 0 <= c < |s.clients| ==> t.clients[c].life == s.clients[c].life
    requires forall x :: Downloads(s, x) && Attached(s, s.calls[x]) && s.calls[x].ino in s.disk.data ==>
      s.calls[x].ino in t.disk.data && t.disk.data[s.calls[x].ino] == s.disk.data[s.calls[x].ino]
    ensures CallsShown(t, a.fetches, a.flushes)
  {
    forall x
      ensures FetchShown(t, a.fetches, x) && FlushShown(t, a.flushes, x)
    {
      assert FetchShown(s, a.fetches, x) && FlushShown(s, a.flushes, x);
    }
  }

  // ----- consequences of the invariant ------------------------------------------------

  lemma NamesKnown(s: State)
    requires Inv(s)
    ensures s.disk.Valid()
  {
    forall p | p in s.disk.names
      ensures s.disk.names[p] in s.disk.data
    {
      assert Claims(s, p, s.disk.names[p]);
    }
    forall p, q | p in s.disk.names && q in s.disk.names && s.disk.names[p] == s.disk.names[q]
      ensures p == q
    {
      assert Claims(s, p, s.disk.names[p]) && Claims(s, q, s.disk.names[p]);
    }
  }

  /** An inode referred to under a temp name is neither visible nor cached nor being read. */
  lemma TempUnseen(s: State, t: Path, i: Ino)
    requires Inv(s) && IsTemp(t) && Claims(s, t, i)
    ensures forall c, p :: 0 <= c < |s.clients| ==> !CachedAs(s.clients[c], p, i)
    ensures forall p :: p in s.disk.names && !IsTemp(p) ==> s.disk.names[p] != i
    ensures forall x :: Downloads(s, x) && Attached(s, s.calls[x]) ==> s.calls[x].ino != i
  {
    forall p | p in s.disk.names && !IsTemp(p)
      ensures s.disk.names[p] != i
    {
      assert Claims(s, p, s.disk.names[p]);
    }
    forall c, p | 0 <= c < |s.clients| && CachedAs(s.clients[c], p, i)
      ensures false
    {
      assert ClientOk(s, c);
      assert Claims(s, p, i);
    }
    forall x | Downloads(s, x) && Attached(s, s.calls[x])
      ensures s.calls[x].ino != i
    {
      assert CallOk(s, x, s.calls[x]);
      assert FetchedAs(s, s.calls[x], s.calls[x].path, s.calls[x].ino);
      assert Claims(s, s.calls[x].path, s.calls[x].ino);
    }
  }

  /** No two cached paths of a client name the same local file. */
  lemma LocalFilesApart(s: State, c: nat, p: Path, q: Path)
    requires Inv(s) && c < |s.clients|
    requires p in s.clients[c].cache && q in s.clients[c].cache && p != q
    ensures s.clients[c].cache[p].ino != s.clients[c].cache[q].ino
  {
    assert CachedAs(s.clients[c], p, s.clients[c].cache[p].ino);
    assert CachedAs(s.clients[c], q, s.clients[c].cache[q].ino);
    assert Claims(s, p, s.clients[c].cache[p].ino);
    assert Claims(s, q, s.clients[c].cache[q].ino);
  }

  /** A download fills a local file that no handle of its client shows. */
  lemma ArriveUnseen(s: State, r: Rid, p: Path)
    requires Inv(s) && Downloads(s, r) && Attached(s, s.calls[r])
    requires p in s.clients[s.calls[r].client].open
    ensures p in s.clients[s.calls[r].client].cache
    ensures s.clients[s.calls[r].client].cache[p].ino != s.calls[r].ino
  {
    var d := s.calls[r];
    assert CallOk(s, r, d);
    assert ClientOk(s, d.client);
    var k := s.clients[d.client];
    assert CachedAs(k, p, k.cache[p].ino);
    assert Claims(s, p, k.cache[p].ino);
    assert FetchedAs(s, d, d.path, d.ino);
    assert Claims(s, d.path, d.ino);
  }

  /** The rename publishes exactly what has been received. */
  lemma CommitExact(s: State, r: Rid)
    requires Inv(s) && Fair(s, Commit(r))
    ensures var u := s.calls[r];
            && u.phase.off <= |u.copy| && Boundary(u.phase.off, |u.copy|)
            && (Attached(s, u) || (u.done && u.chan == []) ==> u.phase.off == |u.copy|)
            && u.client < |s.clients|
            && Step(s, Commit(r)).calls[r].phase == Renamed
            && Temp(u.path) in s.disk.names
            && s.disk.names[Temp(u.path)] in s.disk.data
            && s.disk.data[s.disk.names[Temp(u.path)]] == u.copy[..u.phase.off]
            && !IsTemp(u.path)
  {
    var u := s.calls[r];
    assert CallOk(s, r, u);
    InTransitOffset(u.copy, Got(u), u.chan, u.sent);
  }

  // ----- step by step -----------------------------------------------------------

  ghost predicate Refines(s: State, e: Event, a: S.Spec)
    requires Enabled(s, e)
  {
    S.Allowed(a, Label(s, e)) && Shows(Step(s, e), S.Perform(a, Label(s, e)))
  }

  lemma OpenEndHandle(s: State, r: Rid, h: map<Path, S.Copy>, g: map<Path, S.Copy>)
    requires Inv(s) && Fair(s, OpenEnd(r)) && HandlesShown(s.clients[s.calls[r].client], h)
    requires g == if s.calls[r].count > 0 then h[s.calls[r].path := S.Copy(Arrived(s, s.calls[r]), false)] else h
    ensures HandlesShown(Step(s, OpenEnd(r)).clients[s.calls[r].client], g)
  {
    var c := s.calls[r].client;
    assert CallOk(s, r, s.calls[r]);
    assert ClientOk(s, c);
    forall q
      ensures HandleShown(Step(s, OpenEnd(r)).clients[c], g, q)
    {
      assert HandleShown(s.clients[c], h, q);
    }
  }

  lemma OpenBeginRefines(s: State, c: nat, p: Path, r: Rid, a: S.Spec)
    requires Inv(s) && Fair(s, OpenBegin(c, p, r)) && Shows(s, a)
    ensures Refines(s, OpenBegin(c, p, r), a)
  {
    var t := Step(s, OpenBegin(c, p, r));
    assert FetchShown(s, a.fetches, r) && FlushShown(s, a.flushes, r);
    assert PathShown(s.disk, a.store, p) && HandleShown(s.clients[c], a.handles[c], p);
    SameHandles(s.clients[c], t.clients[c], a.handles[c]);
    OneClient(s.clients, a.handles, c, t.clients[c], a.handles[c]);
    var b := S.Perform(a, Label(s, OpenBegin(c, p, r)));
    OneCallChanged(s, t, a, b, r);
  }

  lemma ServerSendRefines(s: State, r: Rid, a: S.Spec)
    requires Inv(s) && Fair(s, ServerSend(r)) && Shows(s, a)
    ensures Refines(s, ServerSend(r), a)
  {
    var t := Step(s, ServerSend(r));
    assert FetchShown(s, a.fetches, r) && FlushShown(s, a.flushes, r);
    var b := S.Perform(a, Label(s, ServerSend(r)));
    OneCallChanged(s, t, a, b, r);
  }

  lemma ClientReceiveRefines(s: State, r: Rid, a: S.Spec)
    requires Inv(s) && Fair(s, ClientReceive(r)) && Shows(s, a)
    ensures Refines(s, ClientReceive(r), a)
  {
    var t := Step(s, ClientReceive(r));
    var c := s.calls[r].client;
    assert CallOk(s, r, s.calls[r]);
    assert FetchShown(s, a.fetches, r) && FlushShown(s, a.flushes, r);
    forall p | p in s.clients[c].open
      ensures p in s.clients[c].cache && s.clients[c].cache[p].ino != s.calls[r].ino
    {
      ArriveUnseen(s, r, p);
    }
    SameHandles(s.clients[c], t.clients[c], a.handles[c]);
    OneClient(s.clients, a.handles, c, t.clients[c], a.handles[c]);
    var b := S.Perform(a, Label(s, ClientReceive(r)));
    OneCallChanged(s, t, a, b, r);
  }

  lemma OpenEndRefines(s: State, r: Rid, a: S.Spec)
    requires Inv(s) && Fair(s, OpenEnd(r)) && Shows(s, a)
    ensures Refines(s, OpenEnd(r), a)
  {
    var t := Step(s, OpenEnd(r));
    var d := s.calls[r];
    assert CallOk(s, r, d);
    InTransitOffset(s.disk.data[d.ino], Arrived(s, d), d.chan, d.off);
    assert FetchShown(s, a.fetches, r) && FlushShown(s, a.flushes, r);
    var b := S.Perform(a, Label(s, OpenEnd(r)));
    OpenEndHandle(s, r, a.handles[d.client], b.handles[d.client]);
    OneClient(s.clients, a.handles, d.client, t.clients[d.client], b.handles[d.client]);
    OneCallChanged(s, t, a, b, r);
  }

  lemma LocalWriteRefines(s: State, c: nat, p: Path, off: nat, data: Bytes, a: S.Spec)
    requires Inv(s) && Fair(s, LocalWrite(c, p, off, data)) && Shows(s, a)
    ensures Refines(s, LocalWrite(c, p, off, data), a)
  {
    var t := Step(s, LocalWrite(c, p, off, data));
    assert HandleShown(s.clients[c], a.handles[c], p);
    var b := S.Perform(a, Label(s, LocalWrite(c, p, off, data)));
    forall q
      ensures HandleShown(t.clients[c], b.handles[c], q)
    {
      assert HandleShown(s.clients[c], a.handles[c], q);
      if q != p && q in s.clients[c].open {
        LocalFilesApart(s, c, p, q);
      }
    }
    OneClient(s.clients, a.handles, c, t.clients[c], b.handles[c]);
    SameCalls(s, t, a);
  }

  lemma FlushBeginRefines(s: State, c: nat, p: Path, r: Rid, a: S.Spec)
    requires Inv(s) && Fair(s, FlushBegin(c, p, r)) && Shows(s, a)
    ensures Refines(s, FlushBegin(c, p, r), a)
  {
    var t := Step(s, FlushBegin(c, p, r));
    assert FetchShown(s, a.fetches, r) && FlushShown(s, a.flushes, r);
    assert HandleShown(s.clients[c], a.handles[c], p);
    SameHandles(s.clients[c], t.clients[c], a.handles[c]);
    OneClient(s.clients, a.handles, c, t.clients[c], a.handles[c]);
    var b := S.Perform(a, Label(s, FlushBegin(c, p, r)));
    OneCallChanged(s, t, a, b, r);
  }

  lemma ClientSendRefines(s: State, r: Rid, a: S.Spec)
    requires Inv(s) && Fair(s, ClientSend(r)) && Shows(s, a)
    ensures Refines(s, ClientSend(r), a)
  {
    var t := Step(s, ClientSend(r));
    assert FetchShown(s, a.fetches, r) && FlushShown(s, a.flushes, r);
    var b := S.Perform(a, Label(s, ClientSend(r)));
    OneCallChanged(s, t, a, b, r);
  }

  lemma TempOpenRefines(s: State, r: Rid, unused: Ino, a: S.Spec)
    requires Inv(s) && Fair(s, TempOpen(r, unused)) && Shows(s, a)
    ensures Refines(s, TempOpen(r, unused), a)
  {
    var t := Step(s, TempOpen(r, unused));
    assert FetchShown(s, a.fetches, r) && FlushShown(s, a.flushes, r);
    NamesKnown(s);
    var name := Temp(s.calls[r].path);
    if name in s.disk.names {
      assert Claims(s, name, s.disk.names[name]);
      TempUnseen(s, name, s.disk.names[name]);
    }
    SameStore(s.disk, t.disk, a.store);
    var b := S.Perform(a, Label(s, TempOpen(r, unused)));
    OneCallChanged(s, t, a, b, r);
  }

  lemma TempWriteRefines(s: State, r: Rid, a: S.Spec)
    requires Inv(s) && Fair(s, TempWrite(r)) && Shows(s, a)
    ensures Refines(s, TempWrite(r), a)
  {
    var t := Step(s, TempWrite(r));
    var u := s.calls[r];
    assert FetchShown(s, a.fetches, r) && FlushShown(s, a.flushes, r);
    NamesKnown(s);
    assert CallOk(s, r, u);
    assert Claims(s, Temp(u.path), u.phase.tmp);
    TempUnseen(s, Temp(u.path), u.phase.tmp);
    SameStore(s.disk, t.disk, a.store);
    var b := S.Perform(a, Label(s, TempWrite(r)));
    OneCallChanged(s, t, a, b, r);
  }

  lemma CommitRefines(s: State, r: Rid, a: S.Spec)
    requires Inv(s) && Fair(s, Commit(r)) && Shows(s, a)
    ensures Refines(s, Commit(r), a)
  {
    var t := Step(s, Commit(r));
    var u := s.calls[r];
    assert FetchShown(s, a.fetches, r) && FlushShown(s, a.flushes, r);
    CommitExact(s, r);
    var b := S.Perform(a, Label(s, Commit(r)));
    forall p
      ensures PathShown(t.disk, b.store, p)
    {
      assert PathShown(s.disk, a.store, p);
    }
    OneCallChanged(s, t, a, b, r);
  }

  lemma TempUnlinkRefines(s: State, r: Rid, a: S.Spec)
    requires Inv(s) && Fair(s, TempUnlink(r)) && Shows(s, a)
    ensures Refines(s, TempUnlink(r), a)
  {
    var t := Step(s, TempUnlink(r));
    assert FetchShown(s, a.fetches, r) && FlushShown(s, a.flushes, r);
    NamesKnown(s);
    SameStore(s.disk, t.disk, a.store);
    var b := S.Perform(a, Label(s, TempUnlink(r)));
    OneCallChanged(s, t, a, b, r);
  }

  lemma NothingSentRefines(s: State, r: Rid, a: S.Spec)
    requires Inv(s) && Fair(s, NothingSent(r)) && Shows(s, a)
    ensures Refines(s, NothingSent(r), a)
  {
    var t := Step(s, NothingSent(r));
    var u := s.calls[r];
    assert FetchShown(s, a.fetches, r) && FlushShown(s, a.flushes, r);
    assert CallOk(s, r, u);
    InTransitOffset(u.copy, [], u.chan, u.sent);
    var b := S.Perform(a, Label(s, NothingSent(r)));
    OneCallChanged(s, t, a, b, r);
  }

  lemma FlushEndRefines(s: State, r: Rid, status: int, a: S.Spec)
    requires Inv(s) && Fair(s, FlushEnd(r, status)) && Shows(s, a)
    ensures Refines(s, FlushEnd(r, status), a)
  {
    var t := Step(s, FlushEnd(r, status));
    var c := s.calls[r].client;
    assert FetchShown(s, a.fetches, r) && FlushShown(s, a.flushes, r);
    SameHandles(s.clients[c], t.clients[c], a.handles[c]);
    OneClient(s.clients, a.handles, c, t.clients[c], a.handles[c]);
    var b := S.Perform(a, Label(s, FlushEnd(r, status)));
    OneCallChanged(s, t, a, b, r);
  }

  lemma CreateFileRefines(s: State, c: nat, p: Path, unused: Ino, a: S.Spec)
    requires Inv(s) && Fair(s, CreateFile(c, p, unused)) && Shows(s, a)
    ensures Refines(s, CreateFile(c, p, unused), a)
  {
    var t := Step(s, CreateFile(c, p, unused));
    NamesKnown(s);
    assert PathShown(s.disk, a.store, p) && HandleShown(s.clients[c], a.handles[c], p);
    assert ClientOk(s, c);
    var b := S.Perform(a, Label(s, CreateFile(c, p, unused)));
    forall x
      ensures PathShown(t.disk, b.store, x)
    {
      assert PathShown(s.disk, a.store, x);
    }
    forall q
      ensures HandleShown(t.clients[c], b.handles[c], q)
    {
      assert HandleShown(s.clients[c], a.handles[c], q);
      if q in s.clients[c].open {
        assert CachedAs(s.clients[c], q, s.clients[c].cache[q].ino);
        assert Claims(s, q, s.clients[c].cache[q].ino);
      }
    }
    OneClient(s.clients, a.handles, c, t.clients[c], b.handles[c]);
    SameCalls(s, t, a);
  }

  lemma DeleteFileRefines(s: State, c: nat, p: Path, a: S.Spec)
    requires Inv(s) && Fair(s, DeleteFile(c, p)) && Shows(s, a)
    ensures Refines(s, DeleteFile(c, p), a)
  {
    var t := Step(s, DeleteFile(c, p));
    var b := S.Perform(a, Label(s, DeleteFile(c, p)));
    forall x
      ensures PathShown(t.disk, b.store, x)
    {
      assert PathShown(s.disk, a.store, x);
    }
    SameCalls(s, t, a);
    SameHandles(s.clients[c], t.clients[c], a.handles[c]);
    OneClient(s.clients, a.handles, c, t.clients[c], a.handles[c]);
  }

  lemma RenameFileRefines(s: State, c: nat, p: Path, q: Path, a: S.Spec)
    requires Inv(s) && Fair(s, RenameFile(c, p, q)) && Shows(s, a)
    ensures Refines(s, RenameFile(c, p, q), a)
  {
    var t := Step(s, RenameFile(c, p, q));
    NamesKnown(s);
    assert PathShown(s.disk, a.store, p);
    var b := S.Perform(a, Label(s, RenameFile(c, p, q)));
    forall x
      ensures PathShown(t.disk, b.store, x)
    {
      assert PathShown(s.disk, a.store, x);
    }
    SameCalls(s, t, a);
    SameHandles(s.clients[c], t.clients[c], a.handles[c]);
    OneClient(s.clients, a.handles, c, t.clients[c], a.handles[c]);
  }

  lemma ReleaseFileRefines(s: State, c: nat, p: Path, a: S.Spec)
    requires Inv(s) && Fair(s, ReleaseFile(c, p)) && Shows(s, a)
    ensures Refines(s, ReleaseFile(c, p), a)
  {
    var t := Step(s, ReleaseFile(c, p));
    assert HandleShown(s.clients[c], a.handles[c], p);
    var b := S.Perform(a, Label(s, ReleaseFile(c, p)));
    forall q
      ensures HandleShown(t.clients[c], b.handles[c], q)
    {
      assert HandleShown(s.clients[c], a.handles[c], q);
    }
    OneClient(s.clients, a.handles, c, t.clients[c], b.handles[c]);
    SameCalls(s, t, a);
  }

  lemma ServerCrashRefines(s: State, a: S.Spec)
    requires Inv(s) && Fair(s, ServerCrash) && Shows(s, a)
    ensures Refines(s, ServerCrash, a)
  {
    var t := Step(s, ServerCrash);
    SameCalls(s, t, a);
  }

  lemma ClientCrashRefines(s: State, c: nat, reloaded: map<Path, Entry>, a: S.Spec)
    requires Inv(s) && Fair(s, ClientCrash(c, reloaded)) && Shows(s, a)
    ensures Refines(s, ClientCrash(c, reloaded), a)
  {
    var t := Step(s, ClientCrash(c, reloaded));
    forall q
      ensures HandleShown(t.clients[c], map[], q)
    {
    }
    OneClient(s.clients, a.handles, c, t.clients[c], map[]);
    forall x
      ensures FetchShown(t, a.fetches, x) && FlushShown(t, a.flushes, x)
    {
      assert FetchShown(s, a.fetches, x) && FlushShown(s, a.flushes, x);
      if Downloads(s, x) {
        assert CallOk(s, x, s.calls[x]);
      }
    }
  }

  /** A step of a transfer that is under way. */
  predicate InTransfer(e: Event) {
    e.ServerSend? || e.ClientReceive? || e.OpenEnd? || e.ClientSend? || e.TempOpen? || e.TempWrite? || e.Commit? ||
    e.TempUnlink? || e.NothingSent? || e.FlushEnd?
  }

  lemma {:induction false} TransferRefines(s: State, e: Event, a: S.Spec)
    requires Inv(s) && Fair(s, e) && Shows(s, a) && InTransfer(e)
    ensures Refines(s, e, a)
  {
    hide Inv, Shows, Fair, Refines;
    match e
    case ServerSend(r) => ServerSendRefines(s, r, a);
    case ClientReceive(r) => ClientReceiveRefines(s, r, a);
    case OpenEnd(r) => OpenEndRefines(s, r, a);
    case ClientSend(r) => ClientSendRefines(s, r, a);
    case TempOpen(r, unused) => TempOpenRefines(s, r, unused, a);
    case TempWrite(r) => TempWriteRefines(s, r, a);
    case Commit(r) => CommitRefines(s, r, a);
    case TempUnlink(r) => TempUnlinkRefines(s, r, a);
    case NothingSent(r) => NothingSentRefines(s, r, a);
    case FlushEnd(r, status) => FlushEndRefines(s, r, status, a);
  }

  /** Refinement: what a user sees of any step is what the specification allows. */
  lemma {:induction false} RefinesStep(s: State, e: Event, a: S.Spec)
    requires Inv(s) && Fair(s, e) && Shows(s, a)
    ensures Refines(s, e, a)
  {
    hide Inv, Shows, Fair, Refines;
    match e
    case OpenBegin(c, p, r) => OpenBeginRefines(s, c, p, r, a);
    case LocalWrite(c, p, off, data) => LocalWriteRefines(s, c, p, off, data, a);
    case FlushBegin(c, p, r) => FlushBeginRefines(s, c, p, r, a);
    case CreateFile(c, p, unused) => CreateFileRefines(s, c, p, unused, a);
    case DeleteFile(c, p) => DeleteFileRefines(s, c, p, a);
    case RenameFile(c, p, q) => RenameFileRefines(s, c, p, q, a);
    case ReleaseFile(c, p) => ReleaseFileRefines(s, c, p, a);
    case ServerCrash => ServerCrashRefines(s, a);
    case ClientCrash(c, reloaded) => ClientCrashRefines(s, c, reloaded, a);
    case _ => TransferRefines(s, e, a);
  }
}
