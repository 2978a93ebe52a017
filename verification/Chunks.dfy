/** Whole-file transfer in pieces: the bodies of the server's download loop and of the
    client's upload loop, one turn at a time. */
module Chunks {
  import opened Options
  import opened Posix

  const CHUNK: nat := 1024

  /** What one turn of the server's `OpenFile` loop does: the message it writes, if any,
      the next values of `sz` and of the descriptor's offset, and whether it breaks. */
  datatype Turn = Turn(message: Option<Bytes>, sz: int, off: nat, stop: bool)

  function DownloadTurn(f: Bytes, sz: nat, off: nat): Turn {
    if sz == 0 then Turn(Some([]), sz, off, true)
    else
      var got := ReadAt(f, off, if sz < CHUNK then sz else CHUNK);
      var rest := if sz < CHUNK then sz else sz - CHUNK;
      if got == [] then Turn(None, rest, off, true)
      else Turn(Some(got), rest, off + |got|, false)
  }

  /** What one turn of the client's `CloseFile` loop reads; the loop breaks on nothing. */
  function UploadTurn(f: Bytes, size: nat, off: nat): Bytes {
    ReadAt(f, off, if size < CHUNK then size else CHUNK)
  }

  function Concat(messages: seq<Bytes>): Bytes {
    if messages == [] then [] else messages[0] + Concat(messages[1..])
  }

  lemma {:induction false} ConcatAppend(a: seq<Bytes>, b: seq<Bytes>)
    ensures Concat(a + b) == Concat(a) + Concat(b)
  {
    if a == [] {
      assert a + b == b;
    } else {
      assert (a + b)[1..] == a[1..] + b;
      ConcatAppend(a[1..], b);
    }
  }

  lemma ConcatSnoc(a: seq<Bytes>, m: Bytes)
    ensures Concat(a + [m]) == Concat(a) + m
  {
    ConcatAppend(a, [m]);
    assert Concat([m]) == m + Concat([]);
  }

  /** A length at which a transfer of `n` bytes can stop short: between two messages. */
  predicate Boundary(k: nat, n: nat) {
    k == n || (k < n && k % 1024 == 0)
  }

  /** The relation that every transfer keeps: of the file `f`, `done` has arrived, the
      messages `chan` are under way, the sender has read up to `off`, and losing any
      tail of the channel leaves a boundary. */
  ghost predicate InTransit(f: Bytes, done: Bytes, chan: seq<Bytes>, off: nat)
    decreases |chan|
  {
    && |done| <= |f| && done == f[..|done|]
    && Boundary(|done|, |f|)
    && if chan == [] then |done| == off else InTransit(f, done + chan[0], chan[1..], off)
  }

  lemma {:induction false} InTransitOffset(f: Bytes, done: Bytes, chan: seq<Bytes>, off: nat)
    requires InTransit(f, done, chan, off)
    ensures |done| <= off <= |f| && Boundary(off, |f|)
    ensures done + Concat(chan) == f[..off]
    decreases |chan|
  {
    if chan != [] {
      InTransitOffset(f, done + chan[0], chan[1..], off);
      assert done + Concat(chan) == done + chan[0] + Concat(chan[1..]);
    }
  }

  lemma {:induction false} Send(f: Bytes, done: Bytes, chan: seq<Bytes>, off: nat, m: Bytes)
    requires InTransit(f, done, chan, off)
    requires off + |m| <= |f| && m == f[off..off + |m|]
    requires |m| == CHUNK || off + |m| == |f|
    ensures InTransit(f, done, chan + [m], off + |m|)
    decreases |chan|
  {
    if chan == [] {
      assert done + m == f[..off + |m|];
      assert ([m])[1..] == [];
    } else {
      assert (chan + [m])[1..] == chan[1..] + [m];
      Send(f, done + chan[0], chan[1..], off, m);
    }
  }

  /** One turn of the download loop keeps the transfer going; `sz` is what is left to
      read, except after the last short piece. */
  lemma DownloadTurnOk(f: Bytes, done: Bytes, chan: seq<Bytes>, sz: nat, off: nat)
    requires InTransit(f, done, chan, off)
    requires sz == |f| - off || (off == |f| && 0 < sz < CHUNK)
    ensures var t := DownloadTurn(f, sz, off);
            && t.sz >= 0
            && InTransit(f, done, if t.message.Some? then chan + [t.message.value] else chan, t.off)
            && (t.sz == |f| - t.off || (t.off == |f| && 0 < t.sz < CHUNK && (t.message.Some? || off == |f|)))
            && (t.stop ==> t.off == |f|)
            && (t.message.None? ==> off == |f| && sz > 0)
  {
    InTransitOffset(f, done, chan, off);
    var t := DownloadTurn(f, sz, off);
    if t.message.Some? {
      Send(f, done, chan, off, t.message.value);
    }
  }

  /** One turn of the upload loop; it reads nothing only at the end of the file. */
  lemma UploadTurnOk(f: Bytes, done: Bytes, chan: seq<Bytes>, off: nat)
    requires InTransit(f, done, chan, off)
    ensures var m := UploadTurn(f, |f|, off);
            && off + |m| <= |f|
            && InTransit(f, done, chan + [m], off + |m|)
            && (m == [] <==> off == |f|)
  {
    InTransitOffset(f, done, chan, off);
    Send(f, done, chan, off, UploadTurn(f, |f|, off));
  }
}
