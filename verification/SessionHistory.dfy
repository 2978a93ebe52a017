/** What the acts of a run alone say about its outcome: who wrote what and whose close
    came last, read backwards from the end of the list, with no state in sight. */
module SessionHistory {
  import opened Options
  import opened Posix
  import opened Chunks
  import opened SessionSpec

  function Prefix(acts: seq<Act>): seq<Act>
    requires acts != []
  {
    acts[..|acts| - 1]
  }

  function Last(acts: seq<Act>): Act
    requires acts != []
  {
    acts[|acts| - 1]
  }

  function Take(f: Bytes, k: nat): Bytes {
    if k <= |f| then f[..k] else f
  }

  /** The server's file at `p`: the last publish, creation, deletion or rename decides. */
  function FileAt(init: map<Path, Bytes>, acts: seq<Act>, p: Path): Option<Bytes>
    decreases |acts|, 1
  {
    if acts == [] then (if p in init then Some(init[p]) else None)
    else
      var pre := Prefix(acts);
      match Last(acts)
      case Publish(r, k) =>
        var f := FlushOf(init, pre, r);
        if f.path == p then Some(Take(f.bytes, k)) else FileAt(init, pre, p)
      case Create(_, q) => if q == p then Some([]) else FileAt(init, pre, p)
      case Delete(q) => if q == p then None else FileAt(init, pre, p)
      case Rename(x, y) =>
        if x == y || FileAt(init, pre, x).None? then FileAt(init, pre, p)
        else if p == y then FileAt(init, pre, x)
        else if p == x then None
        else FileAt(init, pre, p)
      case _ => FileAt(init, pre, p)
  }

  /** What the handle of client `c` on `p` reads: the snapshot of its open, and its own
      writes since. */
  function HandleAt(init: map<Path, Bytes>, acts: seq<Act>, c: nat, p: Path): Option<Copy>
    decreases |acts|, 1
  {
    if acts == [] then None
    else
      var pre := Prefix(acts);
      match Last(acts)
      case Opened(r, k) =>
        var f := FetchOf(init, pre, r);
        if f.client == c && f.path == p then Some(Copy(Take(f.snapshot, k), false)) else HandleAt(init, pre, c, p)
      case Write(d, q, off, data) =>
        var before := HandleAt(init, pre, c, p);
        if d == c && q == p && before.Some? then Some(Copy(WriteAt(before.value.bytes, off, data), true)) else before
      case Create(d, q) => if d == c && q == p then Some(Copy([], false)) else HandleAt(init, pre, c, p)
      case Release(d, q) => if d == c && q == p then None else HandleAt(init, pre, c, p)
      case CrashClient(d) => if d == c then None else HandleAt(init, pre, c, p)
      case _ => HandleAt(init, pre, c, p)
  }

  /** The open that call `r` is carrying out, with the file as it was at that moment. */
  datatype Opening = Opening(client: nat, path: Path, snapshot: Bytes)

  function FetchOf(init: map<Path, Bytes>, acts: seq<Act>, r: Rid): Opening
    decreases |acts|, 0
  {
    if acts == [] then Opening(0, [], [])
    else
      var pre := Prefix(acts);
      match Last(acts)
      case TakeSnapshot(c, p, x) =>
        if x == r then Opening(c, p, FileAt(init, pre, p).GetOr([])) else FetchOf(init, pre, r)
      case _ => FetchOf(init, pre, r)
  }

  /** The flush that call `r` is carrying out, with the copy as it was at that moment. */
  datatype Closing = Closing(client: nat, path: Path, bytes: Bytes)

  function FlushOf(init: map<Path, Bytes>, acts: seq<Act>, r: Rid): Closing
    decreases |acts|, 0
  {
    if acts == [] then Closing(0, [], [])
    else
      var pre := Prefix(acts);
      match Last(acts)
      case StartFlush(c, p, x) =>
        if x == r then Closing(c, p, HandleAt(init, pre, c, p).GetOr(Copy([], false)).bytes)
        else FlushOf(init, pre, r)
      case _ => FlushOf(init, pre, r)
  }

  /** Nothing is open and nothing is under way. */
  ghost predicate Fresh(a: Spec) {
    a.fetches == map[] && a.flushes == map[] && |a.lives| == |a.handles| &&
    forall c :: 0 <= c < |a.handles| ==> a.handles[c] == map[]
  }

  lemma {:induction false} PlayConcat(a: Spec, x: seq<Act>, y: seq<Act>)
    ensures IsPlay(a, x + y) <==> IsPlay(a, x) && IsPlay(Play(a, x), y)
    ensures IsPlay(a, x + y) ==> Play(a, x + y) == Play(Play(a, x), y)
    decreases |x|
  {
    if x == [] {
      assert x + y == y;
    } else {
      assert (x + y)[0] == x[0] && (x + y)[1..] == x[1..] + y;
      if Allowed(a, x[0]) {
        PlayConcat(Perform(a, x[0]), x[1..], y);
      }
    }
  }

  lemma PlaySnoc(a: Spec, acts: seq<Act>)
    requires acts != [] && IsPlay(a, acts)
    ensures IsPlay(a, Prefix(acts)) && Allowed(Play(a, Prefix(acts)), Last(acts))
    ensures Play(a, acts) == Perform(Play(a, Prefix(acts)), Last(acts))
  {
    assert acts == Prefix(acts) + [Last(acts)];
    PlayConcat(a, Prefix(acts), [Last(acts)]);
    assert Play(Perform(Play(a, Prefix(acts)), Last(acts)), []) == Perform(Play(a, Prefix(acts)), Last(acts));
  }

  lemma {:induction false} PlayLengths(a: Spec, acts: seq<Act>)
    requires IsPlay(a, acts)
    ensures |Play(a, acts).handles| == |a.handles| && |Play(a, acts).lives| == |a.lives|
    decreases |acts|
  {
    if acts != [] {
      PlayLengths(Perform(a, acts[0]), acts[1..]);
    }
  }

  ghost predicate StoreExplained(a: Spec, b: Spec, acts: seq<Act>, p: Path) {
    FileAt(a.store, acts, p) == if p in b.store then Some(b.store[p]) else None
  }

  ghost predicate HandleExplained(a: Spec, b: Spec, acts: seq<Act>, c: nat, p: Path)
    requires c < |b.handles|
  {
    HandleAt(a.store, acts, c, p) == if p in b.handles[c] then Some(b.handles[c][p]) else None
  }

  ghost predicate FetchExplained(a: Spec, b: Spec, acts: seq<Act>, r: Rid) {
    r in b.fetches ==>
      FetchOf(a.store, acts, r) == Opening(b.fetches[r].client, b.fetches[r].path, b.fetches[r].snapshot)
  }

  ghost predicate FlushExplained(a: Spec, b: Spec, acts: seq<Act>, r: Rid) {
    r in b.flushes ==>
      FlushOf(a.store, acts, r) == Closing(b.flushes[r].client, b.flushes[r].path, b.flushes[r].bytes)
  }

  ghost predicate Explained(a: Spec, acts: seq<Act>)
    requires IsPlay(a, acts)
  {
    var b := Play(a, acts);
    && |b.handles| == |a.handles| == |b.lives|
    && (forall p :: StoreExplained(a, b, acts, p))
    && (forall c, p :: 0 <= c < |b.handles| ==> HandleExplained(a, b, acts, c, p))
    && (forall r :: FetchExplained(a, b, acts, r))
    && (forall r :: FlushExplained(a, b, acts, r))
  }

  /** Last close wins, every open is a snapshot, every handle is private: the state after
      any run is what the history says. */
  lemma {:induction false} HistoryExplains(a: Spec, acts: seq<Act>)
    requires Fresh(a) && IsPlay(a, acts)
    ensures Explained(a, acts)
    decreases |acts|
  {
    if acts != [] {
      PlaySnoc(a, acts);
      HistoryExplains(a, Prefix(acts));
      var m, b := Play(a, Prefix(acts)), Play(a, acts);
      forall p
        ensures StoreExplained(a, b, acts, p)
      {
        StoreStep(a, acts, p);
      }
      forall c, p | 0 <= c < |b.handles|
        ensures HandleExplained(a, b, acts, c, p)
      {
        HandleStep(a, acts, c, p);
      }
      forall r
        ensures FetchExplained(a, b, acts, r) && FlushExplained(a, b, acts, r)
      {
        CallStep(a, acts, r);
      }
    }
  }

  lemma StoreStep(a: Spec, acts: seq<Act>, p: Path)
    requires acts != [] && IsPlay(a, acts) && IsPlay(a, Prefix(acts)) && Explained(a, Prefix(acts))
    ensures StoreExplained(a, Play(a, acts), acts, p)
  {
    PlaySnoc(a, acts);
    var m := Play(a, Prefix(acts));
    assert StoreExplained(a, m, Prefix(acts), p);
    match Last(acts)
    case Publish(r, k) => assert FlushExplained(a, m, Prefix(acts), r);
    case Rename(x, y) => assert StoreExplained(a, m, Prefix(acts), x);
    case _ =>
  }

  lemma HandleStep(a: Spec, acts: seq<Act>, c: nat, p: Path)
    requires acts != [] && IsPlay(a, acts) && IsPlay(a, Prefix(acts)) && Explained(a, Prefix(acts))
    requires c < |Play(a, acts).handles|
    ensures HandleExplained(a, Play(a, acts), acts, c, p)
  {
    PlaySnoc(a, acts);
    var m := Play(a, Prefix(acts));
    assert HandleExplained(a, m, Prefix(acts), c, p);
    if Last(acts).Opened? {
      assert FetchExplained(a, m, Prefix(acts), Last(acts).r);
    }
    HandleAct(a, m, acts, c, p);
  }

  lemma HandleAct(a: Spec, m: Spec, acts: seq<Act>, c: nat, p: Path)
    requires acts != [] && Allowed(m, Last(acts)) && c < |m.handles|
    requires HandleExplained(a, m, Prefix(acts), c, p)
    requires Last(acts).Opened? ==> FetchExplained(a, m, Prefix(acts), Last(acts).r)
    ensures HandleExplained(a, Perform(m, Last(acts)), acts, c, p)
  {
  }

  lemma CallStep(a: Spec, acts: seq<Act>, r: Rid)
    requires acts != [] && IsPlay(a, acts) && IsPlay(a, Prefix(acts)) && Explained(a, Prefix(acts))
    ensures FetchExplained(a, Play(a, acts), acts, r) && FlushExplained(a, Play(a, acts), acts, r)
  {
    PlaySnoc(a, acts);
    var m := Play(a, Prefix(acts));
    assert FetchExplained(a, m, Prefix(acts), r) && FlushExplained(a, m, Prefix(acts), r);
    match Last(acts)
    case TakeSnapshot(c, p, x) => assert StoreExplained(a, m, Prefix(acts), p);
    case StartFlush(c, p, x) => assert HandleExplained(a, m, Prefix(acts), c, p);
    case _ =>
  }

  // ----- where published bytes come from -----------------------------------------------

  /** Act `j` published `b`, a non-empty piece of the copy that client `c` began to flush at act
      `n`; the server did not crash in between, and the piece is cut short, at a message boundary,
      only if the client did. */
  ghost predicate PieceOfCopy(init: map<Path, Bytes>, acts: seq<Act>, n: nat, j: nat, b: Bytes) {
    && n < j < |acts| && acts[n].StartFlush? && acts[j] == Publish(acts[n].r, |b|)
    && Alone(acts[..j], n)
    && (forall m :: n < m < j ==> acts[m] != CrashServer)
    && var h := HandleAt(init, acts[..n], acts[n].c, acts[n].p);
       && h.Some?
       && 0 < |b| <= |h.value.bytes| && b == h.value.bytes[..|b|]
       && Boundary(|b|, |h.value.bytes|)
       && (|b| < |h.value.bytes| ==> exists m :: n < m < j && acts[m] == CrashClient(acts[n].c))
  }

  /** No later act begins a flush under the same number. */
  predicate Alone(acts: seq<Act>, n: nat)
    requires n < |acts| && acts[n].StartFlush?
  {
    forall i :: n < i < |acts| ==> !(acts[i].StartFlush? && acts[i].r == acts[n].r)
  }

  /** An original file, an empty new one, or a piece of one flushed copy. */
  ghost predicate Sourced(init: map<Path, Bytes>, acts: seq<Act>, b: Bytes) {
    || (exists q :: q in init && init[q] == b)
    || (b == [] && exists n :: 0 <= n < |acts| && acts[n].Create?)
    || (exists n, j :: PieceOfCopy(init, acts, n, j, b))
  }

  /** At act `n` began the flush that `r` carries out; its client has crashed since if it
      now leads another life, and the server has not if it is still in the same epoch. */
  ghost predicate Began(init: map<Path, Bytes>, acts: seq<Act>, r: Rid, f: Flush, lives: seq<nat>, epoch: nat, n: nat) {
    && n < |acts| && acts[n] == StartFlush(f.client, f.path, r) && Alone(acts, n)
    && HandleAt(init, acts[..n], f.client, f.path).Some?
    && f.bytes == HandleAt(init, acts[..n], f.client, f.path).value.bytes
    && f.client < |lives|
    && (f.life != lives[f.client] ==> exists m :: n < m < |acts| && acts[m] == CrashClient(f.client))
    && f.epoch <= epoch
    && (f.epoch == epoch ==> forall m :: n < m < |acts| ==> acts[m] != CrashServer)
  }

  lemma {:induction false} FlushBegins(a: Spec, acts: seq<Act>)
    requires Fresh(a) && acts != [] && IsPlay(a, acts) && Last(acts).StartFlush?
    ensures Last(acts).r in Play(a, acts).flushes
    ensures var b := Play(a, acts);
            Began(a.store, acts, Last(acts).r, b.flushes[Last(acts).r], b.lives, b.epoch, |acts| - 1)
  {
    var pre := Prefix(acts);
    PlaySnoc(a, acts);
    HistoryExplains(a, pre);
    assert HandleExplained(a, Play(a, pre), pre, Last(acts).c, Last(acts).p);
  }

  lemma {:induction false} FlushBegan(a: Spec, acts: seq<Act>, r: Rid) returns (n: nat)
    requires Fresh(a) && IsPlay(a, acts) && r in Play(a, acts).flushes
    ensures Began(a.store, acts, r, Play(a, acts).flushes[r], Play(a, acts).lives, Play(a, acts).epoch, n)
    decreases |acts|
  {
    PlaySnoc(a, acts);
    var pre := Prefix(acts);
    var m, b := Play(a, pre), Play(a, acts);
    if Last(acts).StartFlush? && Last(acts).r == r {
      n := |acts| - 1;
      FlushBegins(a, acts);
    } else {
      n := FlushBegan(a, pre, r);
      BeganStays(a.store, acts, r, m.flushes[r], m.lives, b.lives, m.epoch, b.epoch, n);
    }
  }

  lemma {:induction false} BeganStays(init: map<Path, Bytes>, acts: seq<Act>, r: Rid, f: Flush,
                                      before: seq<nat>, lives: seq<nat>, was: nat, epoch: nat, n: nat)
    requires acts != [] && Began(init, Prefix(acts), r, f, before, was, n)
    requires !(Last(acts).StartFlush? && Last(acts).r == r)
    requires f.client < |lives| && (lives[f.client] == before[f.client] || Last(acts) == CrashClient(f.client))
    requires epoch == if Last(acts) == CrashServer then was + 1 else was
    ensures Began(init, acts, r, f, lives, epoch, n)
  {
    var pre := Prefix(acts);
    assert acts[..n] == pre[..n];
    if lives[f.client] != before[f.client] {
      assert acts[|acts| - 1] == CrashClient(f.client);
    } else if f.life != lives[f.client] {
      var m :| n < m < |pre| && pre[m] == CrashClient(f.client);
      assert acts[m] == CrashClient(f.client);
    }
  }

  /** Crash atomicity over whole runs: a server file is a file that was there at the
      start, a newly created empty one, or a piece of one flushed copy. */
  lemma {:induction false} Provenance(a: Spec, acts: seq<Act>, p: Path)
    requires Fresh(a) && IsPlay(a, acts) && p in Play(a, acts).store
    ensures Sourced(a.store, acts, Play(a, acts).store[p])
    decreases |acts|
  {
    if acts != [] {
      PlaySnoc(a, acts);
      var pre := Prefix(acts);
      var before := Play(a, pre);
      var b := Play(a, acts).store[p];
      if Last(acts).Publish? && before.flushes[Last(acts).r].path == p {
        var n := FlushBegan(a, pre, Last(acts).r);
        PlayLengths(a, pre);
        PublishedPiece(a.store, acts, before.flushes[Last(acts).r], before.lives, before.epoch, n, b);
      } else if Last(acts).Create? && Last(acts).p == p {
        assert acts[|acts| - 1].Create?;
      } else {
        var q := if Last(acts).Rename? && Last(acts).p != Last(acts).q && Last(acts).p in before.store && p == Last(acts).q
          then Last(acts).p else p;
        assert q in before.store && before.store[q] == b;
        Provenance(a, pre, q);
        SourcedStays(a.store, acts, b);
      }
    }
  }

  lemma {:induction false} SourcedStays(init: map<Path, Bytes>, acts: seq<Act>, b: Bytes)
    requires acts != [] && Sourced(init, Prefix(acts), b)
    ensures Sourced(init, acts, b)
  {
    var pre := Prefix(acts);
    if n :| 0 <= n < |pre| && pre[n].Create? {
      assert acts[n].Create?;
    }
    if n, j :| PieceOfCopy(init, pre, n, j, b) {
      PieceStays(init, acts, n, j, b);
    }
  }

  lemma {:induction false} PublishedPiece(init: map<Path, Bytes>, acts: seq<Act>, f: Flush, lives: seq<nat>, epoch: nat, n: nat, b: Bytes)
    requires acts != [] && Last(acts).Publish?
    requires Began(init, Prefix(acts), Last(acts).r, f, lives, epoch, n) && f.epoch == epoch
    requires 0 < |b| == Last(acts).k <= |f.bytes| && b == f.bytes[..|b|] && Boundary(|b|, |f.bytes|)
    requires f.life == lives[f.client] ==> |b| == |f.bytes|
    ensures PieceOfCopy(init, acts, n, |acts| - 1, b)
  {
    var pre := Prefix(acts);
    assert acts[..n] == pre[..n];
    if |b| < |f.bytes| {
      var m :| n < m < |pre| && pre[m] == CrashClient(f.client);
      assert acts[m] == CrashClient(f.client);
    }
  }

  lemma {:induction false} PieceStays(init: map<Path, Bytes>, acts: seq<Act>, n: nat, j: nat, b: Bytes)
    requires acts != [] && PieceOfCopy(init, Prefix(acts), n, j, b)
    ensures PieceOfCopy(init, acts, n, j, b)
  {
    var pre := Prefix(acts);
    assert acts[..n] == pre[..n] && acts[..j] == pre[..j];
    if |b| < |HandleAt(init, acts[..n], acts[n].c, acts[n].p).value.bytes| {
      var m :| n < m < j && pre[m] == CrashClient(acts[n].c);
      assert acts[m] == CrashClient(acts[n].c);
    }
  }

  /** A server crash settles every flush under way: none of them is published later. */
  lemma {:induction false} NoPublishAfterCrash(a: Spec, acts: seq<Act>, r: Rid)
    requires IsPlay(a, acts)
    requires r in a.flushes ==> a.flushes[r].epoch < a.epoch
    requires forall i :: 0 <= i < |acts| ==> !(acts[i].StartFlush? && acts[i].r == r)
    ensures forall i :: 0 <= i < |acts| ==> !(acts[i].Publish? && acts[i].r == r)
    decreases |acts|
  {
    if acts != [] {
      var b := Perform(a, acts[0]);
      assert forall i :: 0 <= i < |acts[1..]| ==> acts[1..][i] == acts[i + 1];
      NoPublishAfterCrash(b, acts[1..], r);
      forall i | 0 <= i < |acts|
        ensures !(acts[i].Publish? && acts[i].r == r)
      {
        assert i > 0 ==> acts[i] == acts[1..][i - 1];
      }
    }
  }

  // ----- the dirty bit --------------------------------------------------------------------

  /** Client `c` has written through its handle on `p` since it last opened or created it. */
  predicate WrittenSince(init: map<Path, Bytes>, acts: seq<Act>, c: nat, p: Path)
    decreases |acts|
  {
    acts != [] &&
    var pre := Prefix(acts);
    match Last(acts)
    case Write(d, q, _, _) => (d == c && q == p) || WrittenSince(init, pre, c, p)
    case Opened(r, _) =>
      !(FetchOf(init, pre, r).client == c && FetchOf(init, pre, r).path == p) && WrittenSince(init, pre, c, p)
    case Create(d, q) => !(d == c && q == p) && WrittenSince(init, pre, c, p)
    case _ => WrittenSince(init, pre, c, p)
  }

  lemma {:induction false} DirtyIffWritten(init: map<Path, Bytes>, acts: seq<Act>, c: nat, p: Path)
    requires HandleAt(init, acts, c, p).Some?
    ensures HandleAt(init, acts, c, p).value.dirty <==> WrittenSince(init, acts, c, p)
    decreases |acts|
  {
    var pre := Prefix(acts);
    if HandleAt(init, pre, c, p).Some? {
      DirtyIffWritten(init, pre, c, p);
    }
  }
}
