/** The part of POSIX that the file system rests on: the bytes of one file, and a
    directory of names bound to inodes.  An inode outlives its name, so a descriptor
    that is already open keeps reading the inode it was opened on. */
module Posix {

  type Byte = b: int | 0 <= b < 256
  type Bytes = seq<Byte>
  type Path = string
  type Ino = nat

  function Zeros(n: nat): (z: Bytes)
    ensures |z| == n
  {
    seq(n, _ => 0)
  }

  /** The file `f` after a `pwrite` of `data` at offset `off`; a hole reads as zeros,
      and an empty write does not extend the file. */
  function WriteAt(f: Bytes, off: nat, data: Bytes): Bytes {
    if data == [] then f
    else Resize(f, off) + data + (if off + |data| <= |f| then f[off + |data|..] else [])
  }

  /** The file `f` after `ftruncate` to length `n`. */
  function Resize(f: Bytes, n: nat): Bytes {
    if n <= |f| then f[..n] else f + Zeros(n - |f|)
  }

  /** What `pread` of at most `n` bytes at `off` returns. */
  function ReadAt(f: Bytes, off: nat, n: nat): Bytes {
    if off >= |f| then []
    else if off + n <= |f| then f[off..off + n]
    else f[off..]
  }

  /** Byte `k` of a file after a non-empty write. */
  lemma WriteAtByte(f: Bytes, off: nat, data: Bytes, k: nat)
    requires data != []
    requires k < |WriteAt(f, off, data)|
    ensures |WriteAt(f, off, data)| == (if off + |data| <= |f| then |f| else off + |data|)
    ensures WriteAt(f, off, data)[k] ==
            if off <= k < off + |data| then data[k - off]
            else if k < |f| then f[k]
            else 0
  {
  }

  /** The bytes of a file after `ftruncate`. */
  lemma ResizeByte(f: Bytes, n: nat)
    ensures |Resize(f, n)| == n && forall k :: 0 <= k < n ==> Resize(f, n)[k] == if k < |f| then f[k] else 0
  {
  }

  /** A `pread` gets the bytes that are there, up to the number asked for. */
  lemma ReadAtByte(f: Bytes, off: nat, n: nat)
    ensures |ReadAt(f, off, n)| == if off >= |f| then 0 else if off + n <= |f| then n else |f| - off
    ensures forall k :: 0 <= k < |ReadAt(f, off, n)| ==> ReadAt(f, off, n)[k] == f[off + k]
  {
  }

  /** Writing at the end of a file appends. */
  lemma WriteAtEnd(f: Bytes, data: Bytes)
    ensures WriteAt(f, |f|, data) == f + data
  {
  }

  datatype Disk = Disk(names: map<Path, Ino>, data: map<Ino, Bytes>) {

    /** Every name has bytes, and no inode has two names (there are no hard links). */
    ghost predicate Valid() {
      && (forall p :: p in names ==> names[p] in data)
      && (forall p, q :: p in names && q in names && names[p] == names[q] ==> p == q)
    }

    function Content(p: Path): Bytes
      requires p in names && names[p] in data
    {
      data[names[p]]
    }

    /** `open(p, O_CREAT|O_RDWR|O_TRUNC)`: an existing inode is emptied in place, an
        absent name is bound to the inode number `unused`. */
    function OpenTrunc(p: Path, unused: Ino): (Disk, Ino) {
      if p in names then (this.(data := data[names[p] := []]), names[p])
      else (Disk(names[p := unused], data[unused := []]), unused)
    }

    /** `write` through a descriptor on inode `i` at offset `off`. */
    function Write(i: Ino, off: nat, bytes: Bytes): Disk
      requires i in data
    {
      this.(data := data[i := WriteAt(data[i], off, bytes)])
    }

    /** `rename(source, target)`: atomic; fails (no change) when `source` is not bound. */
    function Rename(source: Path, target: Path): Disk {
      if source !in names || source == target then this
      else this.(names := (names - {source})[target := names[source]])
    }

    /** `unlink(p)`: removes the name only. */
    function Unlink(p: Path): Disk {
      this.(names := names - {p})
    }
  }
}
