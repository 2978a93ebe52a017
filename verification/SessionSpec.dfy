/** What a user is promised, with no inodes, messages or temp files: a store of whole
    files, private copies behind handles, opens that take a snapshot and flushes that
    publish a copy in one step. */
module SessionSpec {
  import opened Posix
  import opened Chunks

  type Rid = nat

  datatype Copy = Copy(bytes: Bytes, dirty: bool)
  datatype Fetch = Fetch(client: nat, life: nat, epoch: nat, path: Path, snapshot: Bytes)
  datatype Flush = Flush(client: nat, life: nat, epoch: nat, path: Path, bytes: Bytes)

  /** `epoch` counts the server's crashes and `lives` those of each client; an open or a
      flush is stamped with both. */
  datatype Spec = Spec(
    store: map<Path, Bytes>,
    handles: seq<map<Path, Copy>>,
    fetches: map<Rid, Fetch>,
    flushes: map<Rid, Flush>,
    epoch: nat,
    lives: seq<nat>)

  datatype Act =
    | Internal
    | TakeSnapshot(c: nat, p: Path, r: Rid)
    | Opened(r: Rid, k: nat)     // the handle shows the first `k` bytes of the snapshot
    | OpenLost(r: Rid)           // no message arrived: no handle
    | Write(c: nat, p: Path, off: nat, data: Bytes)
    | StartFlush(c: nat, p: Path, r: Rid)
    | Publish(r: Rid, k: nat)    // the path now holds the first `k` bytes of the copy
    | Abandon(r: Rid)            // the flush ends without touching the store
    | Create(c: nat, p: Path)
    | Delete(p: Path)
    | Rename(p: Path, q: Path)
    | Release(c: nat, p: Path)
    | CrashServer
    | CrashClient(c: nat)

  predicate Current(a: Spec, c: nat, life: nat) {
    c < |a.handles| && c < |a.lives| && a.lives[c] == life
  }

  predicate Allowed(a: Spec, act: Act) {
    match act
    case Internal => true
    case TakeSnapshot(c, p, r) =>
      c < |a.handles| == |a.lives| && p in a.store && p !in a.handles[c] && r !in a.fetches && r !in a.flushes
    case Opened(r, k) =>
      // the whole snapshot, unless the server went down under the download
      r in a.fetches && Current(a, a.fetches[r].client, a.fetches[r].life) &&
      k <= |a.fetches[r].snapshot| && Boundary(k, |a.fetches[r].snapshot|) &&
      (a.fetches[r].epoch == a.epoch ==> k == |a.fetches[r].snapshot|)
    case OpenLost(r) =>
      r in a.fetches && a.fetches[r].epoch != a.epoch
    case Write(c, p, _, _) =>
      c < |a.handles| && p in a.handles[c]
    case StartFlush(c, p, r) =>
      c < |a.handles| == |a.lives| && p in a.handles[c] && a.handles[c][p].dirty && r !in a.fetches && r !in a.flushes
    case Publish(r, k) =>
      // never after a server crash; the whole copy, unless the client crashed
      r in a.flushes && a.flushes[r].epoch == a.epoch &&
      0 < k <= |a.flushes[r].bytes| && Boundary(k, |a.flushes[r].bytes|) &&
      (Current(a, a.flushes[r].client, a.flushes[r].life) ==> k == |a.flushes[r].bytes|)
    case Abandon(r) =>
      // there was nothing to publish, or one of the two is gone
      r in a.flushes && (a.flushes[r].bytes == [] || a.flushes[r].epoch != a.epoch ||
                         !Current(a, a.flushes[r].client, a.flushes[r].life))
    case Create(c, p) =>
      c < |a.handles| && p !in a.store && p !in a.handles[c]
    case Delete(p) => true
    case Rename(p, q) => true
    case Release(c, p) =>
      c < |a.handles| && p in a.handles[c]
    case CrashServer => true
    case CrashClient(c) => c < |a.handles| == |a.lives|
  }

  function Perform(a: Spec, act: Act): Spec
    requires Allowed(a, act)
  {
    match act
    case Internal => a
    case TakeSnapshot(c, p, r) =>
      a.(fetches := a.fetches[r := Fetch(c, a.lives[c], a.epoch, p, a.store[p])])
    case Opened(r, k) =>
      var f := a.fetches[r];
      a.(fetches := a.fetches - {r},
         handles := a.handles[f.client := a.handles[f.client][f.path := Copy(f.snapshot[..k], false)]])
    case OpenLost(r) =>
      a.(fetches := a.fetches - {r})
    case Write(c, p, off, data) =>
      a.(handles := a.handles[c := a.handles[c][p := Copy(WriteAt(a.handles[c][p].bytes, off, data), true)]])
    case StartFlush(c, p, r) =>
      a.(flushes := a.flushes[r := Flush(c, a.lives[c], a.epoch, p, a.handles[c][p].bytes)])
    case Publish(r, k) =>
      var f := a.flushes[r];
      a.(flushes := a.flushes - {r}, store := a.store[f.path := f.bytes[..k]])
    case Abandon(r) =>
      a.(flushes := a.flushes - {r})
    case Create(c, p) =>
      a.(store := a.store[p := []], handles := a.handles[c := a.handles[c][p := Copy([], false)]])
    case Delete(p) =>
      a.(store := a.store - {p})
    case Rename(p, q) =>
      if p !in a.store || p == q then a
      else a.(store := (a.store - {p})[q := a.store[p]])
    case Release(c, p) =>
      a.(handles := a.handles[c := a.handles[c] - {p}])
    case CrashServer =>
      a.(epoch := a.epoch + 1)
    case CrashClient(c) =>
      a.(handles := a.handles[c := map[]], lives := a.lives[c := a.lives[c] + 1])
  }

  predicate IsPlay(a: Spec, acts: seq<Act>)
    decreases |acts|
  {
    acts == [] || (Allowed(a, acts[0]) && IsPlay(Perform(a, acts[0]), acts[1..]))
  }

  function Play(a: Spec, acts: seq<Act>): Spec
    requires IsPlay(a, acts)
    decreases |acts|
  {
    if acts == [] then a else Play(Perform(a, acts[0]), acts[1..])
  }
}
