/** Many clients and one server, step by step.  A step is one system call or one message, except
    that a write through a handle joins its `pwrite` with the setting of the dirty bit, and that
    creating, deleting and renaming are one step each; steps of different clients and of the
    server's handlers interleave freely.  `Enabled` is what the code itself waits for; `Assumed`
    is what it silently relies on. */
module Session {
  import opened Options
  import opened Posix
  import opened Chunks

  type Rid = nat

  const SUFFIX: string := ".ttmmpp"

  predicate IsTemp(p: Path) {
    |p| >= |SUFFIX| && p[|p| - |SUFFIX|..] == SUFFIX
  }

  function Temp(p: Path): (t: Path)
    ensures IsTemp(t)
  {
    p + SUFFIX
  }

  lemma TempInjective(p: Path, q: Path)
    requires Temp(p) == Temp(q)
    ensures p == q
  {
    assert p == Temp(p)[..|Temp(p)| - |SUFFIX|];
    assert q == Temp(q)[..|Temp(q)| - |SUFFIX|];
  }

  /** The fields of a cache entry that matter here: `st_ino` and `isDirty`. */
  datatype Entry = Entry(ino: Ino, dirty: bool)

  /** One client: its cache, the local files `<ino>.tmp`, the paths on which the
      application holds its handle, the RPC that `wiscOPSem` has let through, and how
      often it has been restarted. */
  datatype Client = Client(cache: map<Path, Entry>, local: map<Ino, Bytes>, open: set<Path>, busy: Option<Rid>, life: nat)

  /** Where the server's `CloseFile` handler stands. */
  datatype Phase =
    | Waiting                      // no message read yet
    | Writing(tmp: Ino, off: nat)  // the temp file is open at offset `off`
    | Renamed                      // renamed, temp name not yet unlinked
    | Ended                        // returned

  /** A streaming RPC: the locals of both ends and the messages between them, stamped
      with the life of the client and the epoch of the server that it belongs to.
      `copy` is the client's local file when the flush began; no step reads it. */
  datatype Call =
    | Download(client: nat, life: nat, epoch: nat, path: Path, ino: Ino, sz: nat, off: nat, stopped: bool,
               chan: seq<Bytes>, count: nat)
    | Upload(client: nat, life: nat, epoch: nat, path: Path, source: Ino, size: nat, sent: nat, done: bool,
             chan: seq<Bytes>, phase: Phase, copy: Bytes)

  datatype State = State(disk: Disk, epoch: nat, clients: seq<Client>, calls: map<Rid, Call>)

  /** The server process that serves the call is still running. */
  predicate Served(s: State, k: Call) {
    k.epoch == s.epoch
  }

  /** The client process that made the call is still running. */
  predicate Attached(s: State, k: Call) {
    k.client < |s.clients| && k.life == s.clients[k.client].life
  }

  datatype Event =
    | OpenBegin(c: nat, p: Path, r: Rid)
    | ServerSend(r: Rid)
    | ClientReceive(r: Rid)
    | OpenEnd(r: Rid)
    | LocalWrite(c: nat, p: Path, off: nat, data: Bytes)
    | FlushBegin(c: nat, p: Path, r: Rid)
    | ClientSend(r: Rid)
    | TempOpen(r: Rid, unused: Ino)
    | TempWrite(r: Rid)
    | Commit(r: Rid)
    | TempUnlink(r: Rid)
    | NothingSent(r: Rid)
    | FlushEnd(r: Rid, status: int)  // what `CloseFile` returns to the application
    | CreateFile(c: nat, p: Path, unused: Ino)
    | DeleteFile(c: nat, p: Path)
    | RenameFile(c: nat, p: Path, q: Path)
    | ReleaseFile(c: nat, p: Path)
    | ServerCrash
    | ClientCrash(c: nat, reloaded: map<Path, Entry>)

  /** A stream ends for the server when the client said so and everything has been read,
      or when the client is gone. */
  predicate StreamOver(s: State, u: Call)
    requires u.Upload?
  {
    (u.done && u.chan == []) || !Attached(s, u)
  }

  /** The client has more to send, and the server is gone. */
  predicate WriteFails(s: State, u: Call) {
    && u.Upload? && Attached(s, u) && !Served(s, u) && !u.done
    && u.source in s.clients[u.client].local
    && UploadTurn(s.clients[u.client].local[u.source], u.size, u.sent) != []
  }

  predicate Uploads(s: State, r: Rid) {
    r in s.calls && s.calls[r].Upload?
  }

  predicate Downloads(s: State, r: Rid) {
    r in s.calls && s.calls[r].Download?
  }

  /** What a restarted client can find in its cache file: some of the entries, clean. */
  predicate Reloadable(cache: map<Path, Entry>, reloaded: map<Path, Entry>) {
    forall p :: p in reloaded ==> p in cache && reloaded[p] == Entry(cache[p].ino, false)
  }

  predicate Enabled(s: State, e: Event) {
    match e
    case OpenBegin(c, p, r) =>
      // the server's open succeeds; a failing one is outside this model
      c < |s.clients| && s.clients[c].busy.None? && r !in s.calls && p in s.disk.names && s.disk.names[p] in s.disk.data
    case ServerSend(r) =>
      Downloads(s, r) && Served(s, s.calls[r]) && !s.calls[r].stopped && s.calls[r].ino in s.disk.data
    case ClientReceive(r) =>
      Downloads(s, r) && Attached(s, s.calls[r]) && s.calls[r].chan != []
    case OpenEnd(r) =>
      Downloads(s, r) && Attached(s, s.calls[r]) &&
      (!Served(s, s.calls[r]) || (s.calls[r].stopped && s.calls[r].chan == []))
    case LocalWrite(c, p, _, _) =>
      c < |s.clients| && p in s.clients[c].cache && s.clients[c].cache[p].ino in s.clients[c].local
    case FlushBegin(c, p, r) =>
      c < |s.clients| && s.clients[c].busy.None? && r !in s.calls &&
      p in s.clients[c].cache && s.clients[c].cache[p].dirty && s.clients[c].cache[p].ino in s.clients[c].local
    case ClientSend(r) =>
      Uploads(s, r) && Attached(s, s.calls[r]) && !s.calls[r].done &&
      s.calls[r].source in s.clients[s.calls[r].client].local
    case TempOpen(r, unused) =>
      Uploads(s, r) && Served(s, s.calls[r]) && s.calls[r].phase.Waiting? && s.calls[r].chan != [] &&
      unused !in s.disk.data
    case TempWrite(r) =>
      Uploads(s, r) && Served(s, s.calls[r]) && s.calls[r].phase.Writing? && s.calls[r].chan != [] &&
      s.calls[r].phase.tmp in s.disk.data
    case Commit(r) =>
      Uploads(s, r) && Served(s, s.calls[r]) && s.calls[r].phase.Writing? && s.calls[r].phase.off > 0 &&
      StreamOver(s, s.calls[r])
    case TempUnlink(r) =>
      Uploads(s, r) && Served(s, s.calls[r]) && s.calls[r].phase.Renamed?
    case NothingSent(r) =>
      Uploads(s, r) && Served(s, s.calls[r]) && s.calls[r].phase.Waiting? && StreamOver(s, s.calls[r])
    case FlushEnd(r, status) =>
      // 1 after `WritesDone`, whatever the final status of the call; -1 from a failing write
      Uploads(s, r) && Attached(s, s.calls[r]) &&
      (if status == 1 then s.calls[r].done && (s.calls[r].phase.Ended? || !Served(s, s.calls[r]))
       else status == -1 && WriteFails(s, s.calls[r]))
    case CreateFile(c, p, unused) =>
      c < |s.clients| && s.clients[c].busy.None? && unused !in s.disk.data
    case DeleteFile(c, p) =>
      c < |s.clients| && s.clients[c].busy.None?
    case RenameFile(c, p, q) =>
      c < |s.clients| && s.clients[c].busy.None?
    case ReleaseFile(c, p) =>
      c < |s.clients| && p in s.clients[c].open
    case ServerCrash => true
    case ClientCrash(c, reloaded) =>
      c < |s.clients| && Reloadable(s.clients[c].cache, reloaded)
  }

  /** An upload whose handler still owns the temp name of its path. */
  predicate Live(s: State, k: Call) {
    k.Upload? && Served(s, k) && (k.phase.Writing? || k.phase.Renamed?)
  }

  predicate Uploading(s: State, c: nat, p: Path) {
    exists r :: r in s.calls && s.calls[r].Upload? && Attached(s, s.calls[r]) && s.calls[r].client == c && s.calls[r].path == p
  }

  predicate NoLiveUpload(s: State, p: Path) {
    forall r :: r in s.calls && Live(s, s.calls[r]) ==> s.calls[r].path != p
  }

  predicate Elsewhere(s: State, c: nat, p: Path) {
    || (exists d :: 0 <= d < |s.clients| && d != c && p in s.clients[d].cache)
    || (exists r :: r in s.calls && s.calls[r].Download? && Attached(s, s.calls[r]) && s.calls[r].path == p)
  }

  /** What the code needs from its surroundings and does not check. */
  predicate Assumed(s: State, e: Event) {
    match e
    // the application has no other handle on the path
    case OpenBegin(c, p, _) => c < |s.clients| && !IsTemp(p) && p !in s.clients[c].open
    // through the one handle, and not while that handle is being flushed
    case LocalWrite(c, p, _, _) => c < |s.clients| && p in s.clients[c].open && !Uploading(s, c, p)
    case FlushBegin(c, p, _) => c < |s.clients| && p in s.clients[c].open
    // uploads to one path do not overlap
    case TempOpen(r, _) => r in s.calls && NoLiveUpload(s, s.calls[r].path)
    // the kernel asks for creation only after both client and server denied the path
    case CreateFile(c, p, _) =>
      c < |s.clients| && !IsTemp(p) && p !in s.disk.names && p !in s.clients[c].cache
    // the application's own handles are closed
    case DeleteFile(c, p) => c < |s.clients| && !IsTemp(p) && p !in s.clients[c].open
    // and nobody else knows the old name
    case RenameFile(c, p, q) =>
      c < |s.clients| && !IsTemp(p) && !IsTemp(q) && p !in s.clients[c].open && q !in s.clients[c].open &&
      !Elsewhere(s, c, p)
    case ReleaseFile(c, p) => c < |s.clients| && !Uploading(s, c, p)
    case _ => true
  }

  // ----- the steps ---------------------------------------------------------

  function WithClient(s: State, c: nat, k: Client): State
    requires c < |s.clients|
  {
    s.(clients := s.clients[c := k])
  }

  function WithCall(s: State, r: Rid, k: Call): State {
    s.(calls := s.calls[r := k])
  }

  /** The client's turn for one message: the first one opens the local file with O_TRUNC
      and installs a clean entry; each one appends its bytes. */
  function Arrive(k: Client, p: Path, ino: Ino, first: bool, m: Bytes): Client {
    var before := if first || ino !in k.local then [] else k.local[ino];
    k.(cache := if first then k.cache[p := Entry(ino, false)] else k.cache,
       local := k.local[ino := WriteAt(before, |before|, m)])
  }

  /** `renameCacheValue`: the entry moves, unless the new key is already there. */
  function MoveEntry<V>(cache: map<Path, V>, p: Path, q: Path): map<Path, V> {
    if p !in cache then cache
    else
      var rest := cache - {p};
      if q in rest then rest else rest[q := cache[p]]
  }

  function Step(s: State, e: Event): State
    requires Enabled(s, e)
  {
    match e
    case OpenBegin(c, p, r) =>
      WithCall(WithClient(s, c, s.clients[c].(busy := Some(r))), r,
               Download(c, s.clients[c].life, s.epoch, p, s.disk.names[p], |s.disk.Content(p)|, 0, false, [], 0))
    case ServerSend(r) =>
      var d := s.calls[r];
      var t := DownloadTurn(s.disk.data[d.ino], d.sz, d.off);
      var size := if t.sz < 0 then 0 else t.sz;
      WithCall(s, r, d.(sz := size, off := t.off, stopped := t.stop,
                        chan := if t.message.Some? then d.chan + [t.message.value] else d.chan))
    case ClientReceive(r) =>
      var d := s.calls[r];
      WithCall(WithClient(s, d.client, Arrive(s.clients[d.client], d.path, d.ino, d.count == 0, d.chan[0])), r,
               d.(chan := d.chan[1..], count := d.count + 1))
    case OpenEnd(r) =>
      var d := s.calls[r];
      var k := s.clients[d.client];
      WithClient(s.(calls := s.calls - {r}), d.client,
                 k.(busy := None, open := if d.count > 0 then k.open + {d.path} else k.open))
    case LocalWrite(c, p, off, data) =>
      var k := s.clients[c];
      var ino := k.cache[p].ino;
      WithClient(s, c, k.(cache := k.cache[p := Entry(ino, true)],
                          local := k.local[ino := WriteAt(k.local[ino], off, data)]))
    case FlushBegin(c, p, r) =>
      var ino := s.clients[c].cache[p].ino;
      var f := s.clients[c].local[ino];
      WithCall(WithClient(s, c, s.clients[c].(busy := Some(r))), r,
               Upload(c, s.clients[c].life, s.epoch, p, ino, |f|, 0, false, [], Waiting, f))
    case ClientSend(r) =>
      var u := s.calls[r];
      var m := UploadTurn(s.clients[u.client].local[u.source], u.size, u.sent);
      WithCall(s, r, if m == [] then u.(done := true) else u.(sent := u.sent + |m|, chan := u.chan + [m]))
    case TempOpen(r, unused) =>
      var u := s.calls[r];
      var (disk, tmp) := s.disk.OpenTrunc(Temp(u.path), unused);
      WithCall(s.(disk := disk), r, u.(phase := Writing(tmp, 0)))
    case TempWrite(r) =>
      var u := s.calls[r];
      WithCall(s.(disk := s.disk.Write(u.phase.tmp, u.phase.off, u.chan[0])), r,
               u.(chan := u.chan[1..], phase := Writing(u.phase.tmp, u.phase.off + |u.chan[0]|)))
    case Commit(r) =>
      var u := s.calls[r];
      WithCall(s.(disk := s.disk.Rename(Temp(u.path), u.path)), r,
               u.(phase := if Temp(u.path) in s.disk.names then Renamed else Ended))
    case TempUnlink(r) =>
      var u := s.calls[r];
      WithCall(s.(disk := s.disk.Unlink(Temp(u.path))), r, u.(phase := Ended))
    case NothingSent(r) =>
      WithCall(s, r, s.calls[r].(phase := Ended))
    case FlushEnd(r, _) =>
      var c := s.calls[r].client;
      WithClient(s.(calls := s.calls - {r}), c, s.clients[c].(busy := None))
    case CreateFile(c, p, unused) =>
      var k := s.clients[c];
      WithClient(s.(disk := Disk(s.disk.names[p := unused], s.disk.data[unused := []])), c,
                 k.(cache := if p in k.cache then k.cache else k.cache[p := Entry(unused, false)],
                    local := k.local[unused := []], open := k.open + {p}))
    case DeleteFile(c, p) =>
      WithClient(s.(disk := s.disk.Unlink(p)), c, s.clients[c].(cache := s.clients[c].cache - {p}))
    case RenameFile(c, p, q) =>
      WithClient(s.(disk := s.disk.Rename(p, q)), c,
                 s.clients[c].(cache := MoveEntry(s.clients[c].cache, p, q)))
    case ReleaseFile(c, p) =>
      WithClient(s, c, s.clients[c].(open := s.clients[c].open - {p}))
    case ServerCrash =>
      s.(epoch := s.epoch + 1)
    case ClientCrash(c, reloaded) =>
      var k := s.clients[c];
      WithClient(s, c, Client(reloaded, k.local, {}, None, k.life + 1))
  }

  // ----- runs ---------------------------------------------------------------

  predicate Fair(s: State, e: Event) {
    Enabled(s, e) && Assumed(s, e)
  }

  predicate IsRun(s: State, es: seq<Event>)
    decreases |es|
  {
    es == [] || (Fair(s, es[0]) && IsRun(Step(s, es[0]), es[1..]))
  }

  function Run(s: State, es: seq<Event>): State
    requires IsRun(s, es)
    decreases |es|
  {
    if es == [] then s else Run(Step(s, es[0]), es[1..])
  }

  /** Idle clients with empty caches, and a disk of user files. */
  ghost predicate Initial(s: State) {
    && s.disk.Valid()
    && s.calls == map[]
    && forall c :: 0 <= c < |s.clients| ==> s.clients[c] == Client(map[], map[], {}, None, s.clients[c].life)
  }
}
