/** The server's handlers, each run to its end on the server's disk. */
module Server {
  import opened Posix
  import opened Chunks
  import opened CacheFile
  import Session

  /** One message of a stream; `ino` is the 32-bit field of the protocol. */
  datatype Response = Response(ino: I32, data: Bytes)
  datatype Request = Request(filename: Path, data: Bytes)

  /** Piece `k` of a file. */
  function Piece(f: Bytes, k: nat): Bytes {
    ReadAt(f, k * CHUNK, CHUNK)
  }

  /** 1024 bytes from 1024 k on, or what there is. */
  lemma {:induction false} PieceLaw(f: Bytes, k: nat)
    ensures |Piece(f, k)| == if 1024 * k >= |f| then 0 else if 1024 * k + 1024 <= |f| then 1024 else |f| - 1024 * k
    ensures forall j :: 0 <= j < |Piece(f, k)| ==> Piece(f, k)[j] == f[1024 * k + j]
  {
  }

  function Pieces(f: Bytes, n: nat): (ps: seq<Bytes>)
    ensures |ps| == n && forall k :: 0 <= k < n ==> ps[k] == Piece(f, k)
  {
    if n == 0 then [] else Pieces(f, n - 1) + [Piece(f, n - 1)]
  }

  /** The first pieces of a file make its beginning, and enough of them make the file. */
  lemma {:induction false} PiecesConcat(f: Bytes, n: nat)
    ensures Concat(Pieces(f, n)) == if n * 1024 <= |f| then f[..n * 1024] else f
  {
    if n > 0 {
      PiecesConcat(f, n - 1);
      ConcatSnoc(Pieces(f, n - 1), Piece(f, n - 1));
    }
  }

  /** Where the download loop stands after `k` messages: `sz` is what is left to read,
      except after the last short piece. */
  predicate Reading(n: nat, k: nat, sz: nat, off: nat) {
    if off == n && 0 < sz < CHUNK then k == n / CHUNK + 1 else off == k * CHUNK && off + sz == n
  }

  /** A turn that reads something reads the next piece. */
  lemma {:induction false} ReadingNext(f: Bytes, k: nat, sz: nat, off: nat)
    requires Reading(|f|, k, sz, off) && off < |f|
    ensures var got := ReadAt(f, off, if sz < CHUNK then sz else CHUNK);
            && got == Piece(f, k) && got != [] && off + |got| <= |f|
            && Reading(|f|, k + 1, if sz < CHUNK then sz else sz - CHUNK, off + |got|)
  {
  }

  /** A turn that reads nothing is at the end. */
  lemma {:induction false} ReadingEnd(f: Bytes, k: nat, sz: nat, off: nat)
    requires Reading(|f|, k, sz, off) && off == |f|
    ensures if sz == 0 then k == |f| / CHUNK && Piece(f, k) == [] else k == |f| / CHUNK + 1 && sz < CHUNK
  {
  }

  /** The messages that the turns of the session machine's download make. */
  function Downloaded(f: Bytes, sz: nat, off: nat): seq<Bytes>
    requires off <= |f|
    decreases |f| - off
  {
    var t := DownloadTurn(f, sz, off);
    (if t.message.Some? then [t.message.value] else []) +
    (if t.stop || t.sz < 0 then [] else Downloaded(f, t.sz, t.off))
  }

  /** Turn by turn or in one handler, a download sends the same pieces. */
  lemma {:induction false} DownloadedPieces(f: Bytes, k: nat, sz: nat, off: nat)
    requires off <= |f| && Reading(|f|, k, sz, off)
    ensures Pieces(f, k) + Downloaded(f, sz, off) == Pieces(f, |f| / CHUNK + 1)
    decreases |f| - off
  {
    var t := DownloadTurn(f, sz, off);
    if off < |f| {
      ReadingNext(f, k, sz, off);
      DownloadedPieces(f, k + 1, t.sz, t.off);
    } else {
      ReadingEnd(f, k, sz, off);
    }
  }

  /** The messages that the turns of the session machine's upload make. */
  function Uploaded(f: Bytes, off: nat): seq<Bytes>
    requires off <= |f|
    decreases |f| - off
  {
    var m := UploadTurn(f, |f|, off);
    if m == [] then [] else [m] + Uploaded(f, off + |m|)
  }

  lemma {:induction false} UploadedPieces(f: Bytes, k: nat, off: nat)
    requires off <= |f| && (if off < |f| then off == k * CHUNK else k == (|f| + CHUNK - 1) / CHUNK)
    ensures Pieces(f, k) + Uploaded(f, off) == Pieces(f, (|f| + CHUNK - 1) / CHUNK)
    decreases |f| - off
  {
    var m := UploadTurn(f, |f|, off);
    if off < |f| {
      assert m == Piece(f, k);
      UploadedPieces(f, k + 1, off + |m|);
    }
  }

  lemma {:induction false} WholeTransfers(f: Bytes)
    ensures Downloaded(f, |f|, 0) == Pieces(f, |f| / CHUNK + 1)
    ensures Uploaded(f, 0) == Pieces(f, (|f| + CHUNK - 1) / CHUNK)
  {
    DownloadedPieces(f, 0, |f|, 0);
    UploadedPieces(f, 0, 0);
    assert forall ps: seq<Bytes> :: [] + ps == ps;
  }

  function Data(requests: seq<Request>): (ps: seq<Bytes>)
    ensures |ps| == |requests| && forall k :: 0 <= k < |ps| ==> ps[k] == requests[k].data
  {
    seq(|requests|, k requires 0 <= k < |requests| => requests[k].data)
  }

  function Payload(stream: seq<Response>): (ps: seq<Bytes>)
    ensures |ps| == |stream| && forall k :: 0 <= k < |ps| ==> ps[k] == stream[k].data
  {
    seq(|stream|, k requires 0 <= k < |stream| => stream[k].data)
  }

  /** The messages so far carry the bytes. */
  predicate Sent(stream: seq<Response>, ino: I32, bytes: Bytes) {
    && Concat(Payload(stream)) == bytes
    && forall k :: 0 <= k < |stream| ==> stream[k].ino == ino && |stream[k].data| <= CHUNK
  }

  predicate InPieces(stream: seq<Response>, ino: I32, f: Bytes) {
    forall k :: 0 <= k < |stream| ==> stream[k] == Response(ino, Piece(f, k))
  }

  lemma {:induction false} SentNext(stream: seq<Response>, ino: I32, bytes: Bytes, m: Bytes)
    requires Sent(stream, ino, bytes) && |m| <= CHUNK
    ensures Sent(stream + [Response(ino, m)], ino, bytes + m)
  {
    assert Payload(stream + [Response(ino, m)]) == Payload(stream) + [m];
    ConcatSnoc(Payload(stream), m);
  }

  lemma {:induction false} StreamIsFile(ino: I32, f: Bytes, stream: seq<Response>)
    requires |stream| == |f| / CHUNK + 1
    requires forall k :: 0 <= k < |stream| ==> stream[k] == Response(ino, Piece(f, k))
    ensures Concat(Payload(stream)) == f && Payload(stream) == Downloaded(f, |f|, 0)
  {
    PiecesConcat(f, |stream|);
    assert Payload(stream) == Pieces(f, |stream|);
    WholeTransfers(f);
  }

  /** How many messages an upload needs. */
  function MessageCount(f: Bytes): (n: nat)
    ensures 1024 * n >= |f| && (n > 0 ==> 1024 * (n - 1) < |f|)
  {
    (|f| + CHUNK - 1) / CHUNK
  }

  /** Where the loop stands between two turns. */
  predicate Turning(ino: I32, f: Bytes, stream: seq<Response>, sz: nat, off: nat) {
    && ToI32(|f|) >= 0 && off <= |f| && Counting(ToI32(|f|), sz, off)
    && Sent(stream, ino, f[..off]) && (stream == [] ==> off == 0)
    && (|f| < 0x8000_0000 ==> Reading(|f|, |stream|, sz, off) && InPieces(stream, ino, f))
  }

  /** Where it ends. */
  predicate AllSent(ino: I32, f: Bytes, stream: seq<Response>)
    requires ToI32(|f|) >= 0
  {
    && stream != [] && Sent(stream, ino, Delivered(f))
    && (|f| < 0x8000_0000 ==>
          |stream| == |f| / CHUNK + 1 && InPieces(stream, ino, f) && Payload(stream) == Downloaded(f, |f|, 0))
  }

  lemma {:induction false} TurnsBegin(ino: I32, f: Bytes)
    requires ToI32(|f|) >= 0
    ensures Turning(ino, f, [], ToI32(|f|), 0)
  {
    SizeFacts(|f|);
    assert Concat(Payload([])) == [] == f[..0];
  }

  lemma {:induction false} TurnReads(ino: I32, f: Bytes, stream: seq<Response>, sz: nat, off: nat)
    requires Turning(ino, f, stream, sz, off) && off < |f| && sz > 0
    ensures var got := ReadAt(f, off, if sz < CHUNK then sz else CHUNK);
            && got != [] && off + |got| <= |f|
            && Turning(ino, f, stream + [Response(ino, got)], if sz < CHUNK then sz else sz - CHUNK, off + |got|)
  {
    hide Sent, InPieces, Reading, Counting, Piece;
    CountingNext(f, sz, off);
    SentNext(stream, ino, f[..off], ReadAt(f, off, if sz < CHUNK then sz else CHUNK));
    if |f| < 0x8000_0000 {
      ReadingNext(f, |stream|, sz, off);
      PiecesNext(stream, ino, f);
    }
  }

  lemma {:induction false} PiecesNext(stream: seq<Response>, ino: I32, f: Bytes)
    requires InPieces(stream, ino, f)
    ensures InPieces(stream + [Response(ino, Piece(f, |stream|))], ino, f)
  {
  }

  lemma {:induction false} TurnsEnd(ino: I32, f: Bytes, stream: seq<Response>, sz: nat, off: nat)
    requires Turning(ino, f, stream, sz, off) && (sz == 0 || off == |f|)
    ensures if sz == 0 then AllSent(ino, f, stream + [Response(ino, [])])
            else ReadAt(f, off, if sz < CHUNK then sz else CHUNK) == [] && AllSent(ino, f, stream)
  {
    CountingEnd(f, sz, off);
    if sz == 0 {
      SentNext(stream, ino, f[..off], []);
      assert f[..off] + [] == f[..off];
    }
    if |f| < 0x8000_0000 {
      SmallEnd(ino, f, stream, sz, off);
    }
  }

  lemma {:induction false} SmallEnd(ino: I32, f: Bytes, stream: seq<Response>, sz: nat, off: nat)
    requires |f| < 0x8000_0000 && off <= |f| && Counting(|f|, sz, off) && (sz == 0 || off == |f|)
    requires Reading(|f|, |stream|, sz, off) && InPieces(stream, ino, f)
    ensures var all := if sz == 0 then stream + [Response(ino, [])] else stream;
            |all| == |f| / CHUNK + 1 && InPieces(all, ino, f) && Payload(all) == Downloaded(f, |f|, 0)
  {
    ReadingEnd(f, |stream|, sz, off);
    StreamIsFile(ino, f, if sz == 0 then stream + [Response(ino, [])] else stream);
  }

  lemma {:induction false} RequestsAreFile(f: Bytes, sent: seq<Request>)
    requires |sent| == MessageCount(f)
    requires forall k :: 0 <= k < |sent| ==> sent[k].data == Piece(f, k)
    ensures Concat(Data(sent)) == f && Data(sent) == Uploaded(f, 0)
  {
    PiecesConcat(f, |sent|);
    assert Data(sent) == Pieces(f, |sent|);
    WholeTransfers(f);
  }

  // ----- files of 2^31 bytes and more ---------------------------------------------------

  /** What a download delivers of a file whose length is no negative `int`: when the length that
      the loop counts down is a multiple of 1024, the loop ends there; when it is not, the loop
      goes on to the end of the file. */
  function Delivered(f: Bytes): (d: Bytes)
    requires ToI32(|f|) >= 0
  {
    SizeFacts(|f|);
    if |f| % CHUNK == 0 then f[..ToI32(|f|)] else f
  }

  lemma {:induction false} SizeFacts(n: nat)
    requires ToI32(n) >= 0
    ensures ToI32(n) <= n && ToI32(n) % CHUNK == n % CHUNK
    ensures n < 0x8000_0000 ==> ToI32(n) == n
    ensures ToI32(n) == n ==> n < 0x8000_0000
  {
  }

  /** The whole file arrives if and only if its length fits an `int` or is no multiple of 1024. */
  lemma {:induction false} DeliveredWholeIff(f: Bytes)
    requires ToI32(|f|) >= 0
    ensures Delivered(f) == f <==> |f| < 0x8000_0000 || |f| % 1024 != 0
  {
    SizeFacts(|f|);
    if |f| % CHUNK == 0 && Delivered(f) == f {
      assert |f[..ToI32(|f|)]| == ToI32(|f|);
    }
  }

  /** The loop on any file: `sz` is left of the counted length `size`, or it is its last, short
      part, which is read again and again. */
  predicate Counting(size: nat, sz: nat, off: nat) {
    (off % CHUNK == 0 && off + sz == size) || (0 < sz < CHUNK && sz == size % CHUNK)
  }

  lemma {:induction false} CountingNext(f: Bytes, sz: nat, off: nat)
    requires ToI32(|f|) >= 0 && Counting(ToI32(|f|), sz, off) && off < |f| && sz > 0
    ensures var got := ReadAt(f, off, if sz < CHUNK then sz else CHUNK);
            && got != [] && off + |got| <= |f| && f[..off] + got == f[..off + |got|]
            && Counting(ToI32(|f|), if sz < CHUNK then sz else sz - CHUNK, off + |got|)
  {
    SizeFacts(|f|);
  }

  lemma {:induction false} CountingEnd(f: Bytes, sz: nat, off: nat)
    requires ToI32(|f|) >= 0 && Counting(ToI32(|f|), sz, off) && off <= |f|
    requires sz == 0 || off == |f|
    ensures f[..off] == Delivered(f)
  {
    SizeFacts(|f|);
    assert f[..|f|] == f;
  }

  /** A whole copy of `bytes` took the place of the file at `p`: an inode that `p` did not
      have before, with nothing else changed but the temp file. */
  ghost predicate Published(before: Disk, p: Path, bytes: Bytes, after: Disk) {
    var temp := p + ".ttmmpp";
    && p in after.names && after.names[p] in after.data && after.Content(p) == bytes
    && (p in before.names ==> after.names[p] != before.names[p])
    && temp !in after.names
    && (forall q :: q != p && q != temp ==> BoundAlike(before, after, q))
    && (forall i :: i in before.data && !(temp in before.names && before.names[temp] == i) ==>
          i in after.data && after.data[i] == before.data[i])
  }

  predicate BoundAlike(before: Disk, after: Disk, q: Path) {
    (q in before.names <==> q in after.names) && (q in before.names ==> after.names[q] == before.names[q])
  }

  /** The contents can be read as a C string from a buffer of their length. */
  predicate HasString(f: Bytes) {
    f == [] || (|f| < 0x8000_0000 && 0 in f)
  }

  function UpToNul(f: Bytes): (s: Bytes)
    ensures |s| <= |f| && s == f[..|s|] && 0 !in s
    ensures |s| < |f| ==> f[|s|] == 0
  {
    if f == [] || f[0] == 0 then [] else [f[0]] + UpToNul(f[1..])
  }

  /** The reply to a creation carries the whole file only if there is nothing in it. */
  lemma {:induction false} CreatedWholeIff(f: Bytes)
    requires HasString(f)
    ensures UpToNul(f) == f <==> f == []
  {
  }

  ghost predicate OnlyWritten(before: Disk, i: Ino, bytes: Bytes, after: Disk) {
    && after.names == before.names && after.data.Keys == before.data.Keys
    && i in after.data && after.data[i] == bytes
    && forall j :: j in before.data && j != i ==> after.data[j] == before.data[j]
  }

  lemma {:induction false} PublishOk(before: Disk, p: Path, unused: Ino, bytes: Bytes, written: Disk)
    requires before.Valid() && unused !in before.data
    requires var (emptied, fd) := before.OpenTrunc(Session.Temp(p), unused);
             OnlyWritten(emptied, fd, bytes, written)
    ensures var after := written.Rename(Session.Temp(p), p).Unlink(Session.Temp(p));
            after.Valid() && Published(before, p, bytes, after)
  {
    var temp := Session.Temp(p);
    var after := written.Rename(temp, p).Unlink(temp);
    assert after.names == (written.names - {temp})[p := written.names[temp]];
  }

  class AfsServer {
    var disk: Disk

    constructor (found: Disk)
      ensures disk == found
    {
      disk := found;
    }

    /** The download: every file makes `n / 1024 + 1` messages, the last one empty when
        1024 divides `n`.  An error is never written to the stream. */
    method OpenFile(filename: Path) returns (stream: seq<Response>)
      requires disk.Valid()
      requires filename in disk.names ==> ToI32(|disk.Content(filename)|) >= 0
      ensures filename !in disk.names ==> stream == []
      ensures filename in disk.names ==>
                var f, ino := disk.Content(filename), ToI32(disk.names[filename]);
                && stream != [] && Concat(Payload(stream)) == Delivered(f)
                && (forall k :: 0 <= k < |stream| ==> stream[k].ino == ino)
                && (|f| < 0x8000_0000 ==>
                      |stream| == |f| / 1024 + 1 && forall k :: 0 <= k < |stream| ==> stream[k] == Response(ino, Piece(f, k)))
    {
      if filename !in disk.names {
        return [];
      }
      stream := SendAll(ToI32(disk.names[filename]), disk.data[disk.names[filename]]);
    }

    /** The loop over the open file `f`. */
    method SendAll(ino: I32, f: Bytes) returns (stream: seq<Response>)
      requires ToI32(|f|) >= 0
      ensures stream != [] && Concat(Payload(stream)) == Delivered(f)
      ensures forall k :: 0 <= k < |stream| ==> stream[k].ino == ino && |stream[k].data| <= CHUNK
      ensures |f| < 0x8000_0000 ==>
                && |stream| == |f| / 1024 + 1
                && (forall k :: 0 <= k < |stream| ==> stream[k] == Response(ino, Piece(f, k)))
                && Payload(stream) == Downloaded(f, |f|, 0)
    {
      stream := [];
      var sz, off := ToI32(|f|), 0;
      TurnsBegin(ino, f);
      while true
        invariant 0 <= sz && off <= |f| && Turning(ino, f, stream, sz, off)
        decreases |f| - off
      {
        if off < |f| && sz > 0 {
          TurnReads(ino, f, stream, sz, off);
        } else {
          TurnsEnd(ino, f, stream, sz, off);
        }
        if sz == 0 {
          stream := stream + [Response(ino, [])];
          break;
        }
        var got;
        if sz < CHUNK {
          got := ReadAt(f, off, sz);
        } else {
          got := ReadAt(f, off, CHUNK);
          sz := sz - CHUNK;
        }
        if got == [] {
          break;
        }
        stream := stream + [Response(ino, got)];
        off := off + |got|;
      }
    }

    /** The upload: the messages go to a temp file that one rename puts in place; without a
        message there is nothing to rename. */
    method CloseFile(requests: seq<Request>, unused: Ino) returns (status: int)
      requires disk.Valid() && unused !in disk.data
      modifies this
      ensures disk.Valid()
      ensures requests == [] ==> disk == old(disk) && status == -1
      ensures requests != [] ==>
                status == 0 && Published(old(disk), requests[0].filename, Concat(Data(requests)), disk)
    {
      if requests == [] {
        return -1;
      }
      var path := requests[0].filename;
      var (emptied, fd) := disk.OpenTrunc(Session.Temp(path), unused);
      disk := emptied;
      WriteAll(fd, requests);
      PublishOk(old(disk), path, unused, Concat(Data(requests)), disk);
      disk := disk.Rename(Session.Temp(path), path);
      disk := disk.Unlink(Session.Temp(path));
      return 0;
    }

    /** The reading loop: everything received is appended to the open temp file. */
    method WriteAll(fd: Ino, requests: seq<Request>)
      requires fd in disk.data && disk.data[fd] == []
      modifies this
      ensures OnlyWritten(old(disk), fd, Concat(Data(requests)), disk)
    {
      var off, i := 0, 0;
      while i < |requests|
        invariant 0 <= i <= |requests|
        invariant OnlyWritten(old(disk), fd, Concat(Data(requests[..i])), disk)
        invariant off == |disk.data[fd]|
      {
        WriteAtEnd(disk.data[fd], requests[i].data);
        assert Data(requests[..i + 1]) == Data(requests[..i]) + [requests[i].data];
        ConcatSnoc(Data(requests[..i]), requests[i].data);
        disk := disk.Write(fd, off, requests[i].data);
        off := off + |requests[i].data|;
        i := i + 1;
      }
      assert requests[..i] == requests;
    }

    /** The file exists afterwards; the reply carries the contents of an existing one as a C
        string.  Without a NUL in them there is no such string. */
    method CreateFile(filename: Path, unused: Ino) returns (reply: Response)
      requires disk.Valid() && unused !in disk.data
      requires filename in disk.names ==> HasString(disk.Content(filename))
      modifies this
      ensures disk.Valid() && filename in disk.names && HasString(disk.Content(filename))
      ensures if filename in old(disk.names) then disk == old(disk)
              else disk.names == old(disk.names)[filename := unused] && disk.data == old(disk.data)[unused := []]
      ensures reply == Response(ToI32(disk.names[filename]), UpToNul(disk.Content(filename)))
    {
      if filename !in disk.names {
        disk := Disk(disk.names[filename := unused], disk.data[unused := []]);
      }
      reply := Response(ToI32(disk.names[filename]), UpToNul(disk.Content(filename)));
    }

    /** Only the name goes; the bytes stay for whoever has the file open. */
    method DeleteFile(filename: Path) returns (status: int)
      modifies this
      ensures old(disk.Valid()) ==> disk.Valid()
      ensures disk == Disk(old(disk.names) - {filename}, old(disk.data))
      ensures status == if filename in old(disk.names) then 1 else -1
    {
      status := if filename in disk.names then 1 else -1;
      disk := disk.Unlink(filename);
    }

    method RenameFile(oldname: Path, newname: Path) returns (status: int)
      modifies this
      ensures old(disk.Valid()) ==> disk.Valid()
      ensures disk == old(disk).Rename(oldname, newname) && disk.data == old(disk.data)
      ensures if oldname !in old(disk.names) then status == -1 && disk == old(disk)
              else && status == 1 && newname in disk.names && disk.names[newname] == old(disk.names[oldname])
                   && (oldname in disk.names <==> oldname == newname)
                   && forall q :: q != oldname && q != newname ==> BoundAlike(old(disk), disk, q)
    {
      status := if oldname in disk.names then 1 else -1;
      disk := disk.Rename(oldname, newname);
    }
  }
}
