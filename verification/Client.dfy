/** The client's operations, each run to its end against the server `stub`. */
module Client {
  import opened Options
  import opened Posix
  import opened Chunks
  import opened CacheFile
  import opened Server
  import D = DiskCache
  import Session

  class AfsClient {
    const diskCache: D.DiskCache
    const stub: AfsServer
    var local: map<int, Bytes>  // the local files, by the number in their names

    constructor (diskCache: D.DiskCache, stub: AfsServer)
      ensures this.diskCache == diskCache && this.stub == stub && local == map[]
    {
      this.diskCache, this.stub, local := diskCache, stub, map[];
    }

    /** The local file that a handle on the path shows: its number in a 64-bit file name. */
    function Local(filename: Path): Option<Bytes>
      reads this, diskCache
    {
      if filename in diskCache.cache && diskCache.cache[filename].info.ino in local
      then Some(local[diskCache.cache[filename].info.ino]) else None
    }

    /** What the server delivers of the file arrives in the local file named by the protocol's inode number, behind
        a clean entry.  `attrs` and `fd` are what `fstat` and `open` answer; the result is
        the number of the local file that is open, if any. */
    method OpenFile(filename: Path, attrs: Info, fd: I32) returns (number: Option<int>)
      requires stub.disk.Valid()
      requires filename in stub.disk.names ==> ToI32(|stub.disk.Content(filename)|) >= 0
      modifies this, diskCache
      ensures filename !in stub.disk.names ==>
                number == None && local == old(local) && diskCache.Now() == old(diskCache.Now())
      ensures filename in stub.disk.names ==>
                var n := ToI32(stub.disk.names[filename]);
                && number == Some(n)
                && local == old(local)[n := Delivered(stub.disk.Content(filename))]
                && diskCache.Now() == D.Saved(old(diskCache.cache)[filename := Value(attrs.(ino := ToU32(n)), false, fd)])
    {
      var stream := stub.OpenFile(filename);
      number := None;
      var count := 0;
      while count < |stream|
        invariant 0 <= count <= |stream|
        invariant count == 0 ==> number == None && local == old(local) && diskCache.Now() == old(diskCache.Now())
        invariant count > 0 ==>
                    && number == Some(stream[0].ino)
                    && local == old(local)[stream[0].ino := Concat(Payload(stream[..count]))]
                    && diskCache.Now() ==
                       D.Saved(old(diskCache.cache)[filename := Value(attrs.(ino := ToU32(stream[0].ino)), false, fd)])
      {
        var reply := stream[count];
        if count == 0 {
          number := Some(reply.ino);
          local := local[reply.ino := []];
          Install(filename, Value(attrs.(ino := ToU32(reply.ino)), false, fd));
        }
        PayloadNext(stream, count);
        WriteAtEnd(local[number.value], reply.data);
        local := local[number.value := WriteAt(local[number.value], |local[number.value]|, reply.data)];
        count := count + 1;
      }
      assert stream[..count] == stream;
    }

    /** The entry of a path is replaced, or added. */
    method Install(filename: Path, value: Value)
      modifies diskCache
      ensures diskCache.Now() == D.Saved(old(diskCache.cache)[filename := value])
    {
      var known := diskCache.GetCacheValue(filename);
      if known.None? {
        diskCache.AddCacheValue(filename, value);
      } else {
        diskCache.UpdateCacheValue(filename, value);
      }
    }

    /** `pwrite` on the open local file, then `WriteFile`. */
    method Write(filename: Path, number: int, off: nat, data: Bytes) returns (fd: Option<I32>)
      requires number in local
      modifies this, diskCache
      ensures local == old(local)[number := WriteAt(old(local[number]), off, data)]
      ensures filename !in old(diskCache.cache) ==> fd == None && diskCache.Now() == old(diskCache.Now())
      ensures filename in old(diskCache.cache) ==>
                var v := old(diskCache.cache[filename]);
                && fd == Some(v.fd)
                && diskCache.Now() ==
                   if v.dirty then old(diskCache.Now()) else D.Saved(old(diskCache.cache)[filename := v.(dirty := true)])
    {
      local := local[number := WriteAt(local[number], off, data)];
      fd := WriteFile(filename);
    }

    method WriteFile(filename: Path) returns (fd: Option<I32>)
      modifies diskCache
      ensures filename !in old(diskCache.cache) ==> fd == None && diskCache.Now() == old(diskCache.Now())
      ensures filename in old(diskCache.cache) ==>
                var v := old(diskCache.cache[filename]);
                && fd == Some(v.fd)
                && diskCache.Now() ==
                   if v.dirty then old(diskCache.Now()) else D.Saved(old(diskCache.cache)[filename := v.(dirty := true)])
    {
      var ccv := diskCache.GetCacheValue(filename);
      if ccv.None? {
        return None;
      }
      if !ccv.value.dirty {
        diskCache.UpdateCacheValue(filename, ccv.value.(dirty := true));
      }
      return Some(ccv.value.fd);
    }

    /** The upload loop: `ceil(n / 1024)` messages, none of them empty, that make the copy.  When
        the server is down, the stream takes `down` more messages and then fails. */
    method Upload(filename: Path, f: Bytes, down: Option<nat>) returns (ok: bool, sent: seq<Request>)
      ensures ok <==> down.None? || MessageCount(f) <= down.value
      ensures forall k :: 0 <= k < |sent| ==> sent[k] == Request(filename, Piece(f, k)) && sent[k].data != []
      ensures if ok then |sent| == MessageCount(f) && Concat(Data(sent)) == f && Data(sent) == Uploaded(f, 0)
              else |sent| == down.value
    {
      var sz := |f|;
      var off := 0;
      sent := [];
      ok := true;
      while true
        invariant off <= |f| && ok && (down.None? || |sent| <= down.value)
        invariant if off < |f| then off == |sent| * CHUNK else |sent| == MessageCount(f)
        invariant forall k :: 0 <= k < |sent| ==> sent[k] == Request(filename, Piece(f, k)) && sent[k].data != []
        decreases |f| - off
      {
        var got := if sz < CHUNK then ReadAt(f, off, sz) else ReadAt(f, off, CHUNK);
        if got == [] {
          break;
        }
        if down == Some(|sent|) {
          return false, sent;
        }
        sent := sent + [Request(filename, got)];
        off := off + |got|;
      }
      RequestsAreFile(f, sent);
    }

    /** The flush: a dirty copy is published whole, or not at all when it is empty; a clean
        one sends nothing.  When the server is down, only a message that the stream does not take
        makes a difference to the status.  The entry stays as it is, dirty or not. */
    method CloseFile(filename: Path, unused: Ino, down: Option<nat>) returns (status: int)
      requires stub.disk.Valid() && unused !in stub.disk.data
      modifies stub
      ensures stub.disk.Valid()
      ensures var dirty := filename in diskCache.cache && diskCache.cache[filename].dirty;
              && status == (if filename !in diskCache.cache then -1
                            else if !dirty then 1
                            else if Local(filename) == None then -1
                            else if down.Some? && down.value < MessageCount(Local(filename).value) then -1
                            else 1)
              && if dirty && Local(filename).GetOr([]) != [] && down == None
                 then Published(old(stub.disk), filename, Local(filename).value, stub.disk)
                 else stub.disk == old(stub.disk)
    {
      var ccv := diskCache.GetCacheValue(filename);
      if ccv.None? {
        return -1;
      }
      if !ccv.value.dirty {
        return 1;
      }
      if ccv.value.info.ino !in local {
        return -1;
      }
      var ok, sent := Upload(filename, local[ccv.value.info.ino], down);
      if !ok {
        return -1;
      }
      assert sent == [] ==> Concat(Data(sent)) == [];
      if down.None? {
        var _ := stub.CloseFile(sent, unused);
      }
      return 1;
    }

    /** The server's file exists afterwards, and the handle is on a local file with what the reply
        carries of it. */
    method CreateFile(filename: Path, attrs: Info, fd: I32, unused: Ino) returns (number: int)
      requires stub.disk.Valid() && unused !in stub.disk.data
      requires filename in stub.disk.names ==> HasString(stub.disk.Content(filename))
      modifies this, diskCache, stub
      ensures stub.disk.Valid() && filename in stub.disk.names
      ensures if filename in old(stub.disk.names) then stub.disk == old(stub.disk)
              else stub.disk.names == old(stub.disk.names)[filename := unused] && stub.disk.data == old(stub.disk.data)[unused := []]
      ensures number == ToI32(stub.disk.names[filename])
      ensures local == old(local)[number := UpToNul(stub.disk.Content(filename))]
      ensures diskCache.Now() ==
              D.Saved(Insert(old(diskCache.cache), filename, Value(attrs.(ino := ToU32(number)), false, fd)))
    {
      var reply := stub.CreateFile(filename, unused);
      number := reply.ino;
      local := local[number := reply.data];
      diskCache.AddCacheValue(filename, Value(attrs.(ino := ToU32(number)), false, fd));
    }

    /** The local file stays, for whoever has it open. */
    method DeleteFile(filename: Path) returns (status: int)
      modifies diskCache, stub
      ensures filename !in stub.disk.names && stub.disk.data == old(stub.disk.data)
      ensures stub.disk.names == old(stub.disk.names) - {filename}
      ensures status == if filename in old(stub.disk.names) then 1 else -1
      ensures filename !in diskCache.cache && D.OthersKept(old(diskCache.cache), diskCache.cache, {filename})
      ensures diskCache.file == if filename in old(diskCache.cache) then Print(diskCache.cache) else old(diskCache.file)
      ensures diskCache.Now() == D.Apply(old(diskCache.Now()), D.Delete(filename))
    {
      status := stub.DeleteFile(filename);
      var ccv := diskCache.GetCacheValue(filename);
      if ccv.Some? {
        diskCache.DeleteCacheValue(filename);
      }
    }

    /** The entry moves before the server is asked, and does not move back. */
    method RenameFile(oldname: Path, newname: Path) returns (status: int)
      modifies diskCache, stub
      ensures stub.disk == old(stub.disk).Rename(oldname, newname)
      ensures status == if oldname in old(stub.disk.names) then 1 else -1
      ensures diskCache.Now() == D.Apply(old(diskCache.Now()), D.Rename(oldname, newname))
      ensures oldname !in old(diskCache.cache) ==> diskCache.Now() == old(diskCache.Now())
      ensures oldname in old(diskCache.cache) ==>
                && diskCache.file == Print(diskCache.cache)
                && newname in diskCache.cache && (oldname in diskCache.cache ==> oldname == newname)
                && diskCache.cache[newname] == old(diskCache.cache[if newname in diskCache.cache then newname else oldname])
      ensures D.OthersKept(old(diskCache.cache), diskCache.cache, {oldname, newname})
    {
      var ccv := diskCache.GetCacheValue(oldname);
      if ccv.Some? {
        diskCache.RenameCacheValue(oldname, newname);
      }
      status := stub.RenameFile(oldname, newname);
    }

    /** The size of a file: a cached path is answered from the local file, with the server
        left alone. */
    method GetAttr(filename: Path) returns (size: Option<nat>)
      requires stub.disk.Valid()
      ensures filename in diskCache.cache ==>
                size == if Local(filename).Some? then Some(|Local(filename).value|) else None
      ensures filename !in diskCache.cache ==>
                size == if filename in stub.disk.names then Some(|stub.disk.Content(filename)|) else None
    {
      var ccv := diskCache.GetCacheValue(filename);
      if ccv.None? {
        if filename in stub.disk.names {
          return Some(|stub.disk.Content(filename)|);
        }
        return None;
      }
      if ccv.value.info.ino in local {
        return Some(|local[ccv.value.info.ino]|);
      }
      return None;
    }
  }

  lemma {:induction false} PayloadNext(stream: seq<Response>, n: nat)
    requires n < |stream|
    ensures Concat(Payload(stream[..n + 1])) == Concat(Payload(stream[..n])) + stream[n].data
    ensures Payload(stream[..0]) == []
  {
    assert Payload(stream[..n + 1]) == Payload(stream[..n]) + [stream[n].data];
    ConcatSnoc(Payload(stream[..n]), stream[n].data);
  }

  /** The file is written under a signed number and looked up under an unsigned one: they
      name the same local file exactly for inodes whose low 32 bits are below 2^31. */
  lemma {:induction false} LocalNamesAgreeIff(ino: Ino)
    ensures ToU32(ToI32(ino)) == ToI32(ino) <==> ino % 0x1_0000_0000 < 0x8000_0000
  {
  }

  /** Two inodes share a local file exactly if they differ by a multiple of 2^32. */
  lemma {:induction false} LocalNumbersEqualIff(i: Ino, j: Ino)
    ensures ToI32(i) == ToI32(j) <==> (i - j) % 0x1_0000_0000 == 0
  {
    hide ToU32;
    SameResidue(i, j);
    assert ToI32(i) == ToI32(j) <==> ToU32(i) == ToU32(j);
  }

  lemma {:induction false} SameResidue(i: int, j: int)
    ensures ToU32(i) == ToU32(j) <==> (i - j) % 0x1_0000_0000 == 0
  {
    var p, q := i / 0x1_0000_0000, j / 0x1_0000_0000;
    assert i - j == 0x1_0000_0000 * (p - q) + (ToU32(i) - ToU32(j));
  }

  /** A deleted file is gone for the client as well: its attributes are the server's, which has
      none, and closing a handle that is still open sends nothing. */
  method DeletedIsGone(a: AfsClient, filename: Path, unused: Ino, down: Option<nat>) returns (size: Option<nat>, status: int)
    requires a.stub.disk.Valid() && unused !in a.stub.disk.data
    modifies a.diskCache, a.stub
    ensures size == None && status == -1
    ensures filename !in a.stub.disk.names && a.stub.disk.data == old(a.stub.disk.data)
  {
    var _ := a.DeleteFile(filename);
    size := a.GetAttr(filename);
    status := a.CloseFile(filename, unused, down);
  }

  /** Close-to-open between two clients: after `a` has written and closed, `b` opens and reads
      what the server delivers of `a`'s copy; `a`'s bytes are still as they were. */
  method CloseThenOpen(a: AfsClient, b: AfsClient, filename: Path, number: int, off: nat, data: Bytes,
                       attrs: Info, fd: I32, unused: Ino)
    returns (handle: Option<int>)
    requires a != b && a.diskCache != b.diskCache && a.stub == b.stub
    requires a.stub.disk.Valid() && unused !in a.stub.disk.data
    requires filename in a.diskCache.cache && a.diskCache.cache[filename].info.ino == number && number in a.local
    requires WriteAt(a.local[number], off, data) != [] && ToI32(|WriteAt(a.local[number], off, data)|) >= 0
    modifies a, a.diskCache, a.stub, b, b.diskCache
    ensures a.Local(filename) == Some(old(WriteAt(a.local[number], off, data)))
    ensures filename in a.stub.disk.names && handle == Some(ToI32(a.stub.disk.names[filename]))
    ensures handle.value in b.local && b.local[handle.value] == Delivered(old(WriteAt(a.local[number], off, data)))
    ensures a.stub.disk.names[filename] % 0x1_0000_0000 < 0x8000_0000 ==>
              b.Local(filename) == Some(Delivered(old(WriteAt(a.local[number], off, data))))
  {
    var _ := a.Write(filename, number, off, data);
    var _ := a.CloseFile(filename, unused, None);
    handle := b.OpenFile(filename, attrs, fd);
    LocalNamesAgreeIff(b.stub.disk.names[filename]);
  }
}
