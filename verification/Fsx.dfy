/** The file system exerciser: a buffer that shadows a real file under random reads, writes,
    truncations and mapped accesses.  On a file that behaves as POSIX says, it never reports
    a failure. */
module Fsx {
  import opened Posix

  /** The file under test, with one descriptor open on it. */
  class RealFile {
    var bytes: Bytes

    constructor (b: Bytes)
      ensures bytes == b
    {
      bytes := b;
    }

    /** `lseek` to `off` and `write`. */
    method Write(off: nat, data: Bytes) returns (n: nat)
      modifies this
      ensures bytes == WriteAt(old(bytes), off, data) && n == |data|
    {
      bytes := WriteAt(bytes, off, data);
      n := |data|;
    }

    /** `lseek` to `off` and `read`. */
    method Read(off: nat, size: nat) returns (data: Bytes)
      ensures data == ReadAt(bytes, off, size)
    {
      data := ReadAt(bytes, off, size);
    }

    method Truncate(size: nat)
      modifies this
      ensures bytes == Resize(old(bytes), size)
    {
      bytes := Resize(bytes, size);
    }

    /** Loads from a shared mapping of the file; beyond its end they would trap. */
    method MapRead(off: nat, size: nat) returns (data: Bytes)
      requires off + size <= |bytes|
      ensures data == bytes[off..off + size]
    {
      data := bytes[off..off + size];
    }

    /** Stores into a shared mapping of the file; beyond its end they would trap. */
    method MapWrite(off: nat, data: Bytes)
      requires off + |data| <= |bytes|
      modifies this
      ensures bytes == old(bytes)[..off] + data + old(bytes)[off + |data|..]
    {
      bytes := bytes[..off] + data + bytes[off + |data|..];
    }
  }

  /** What the program exits with; 0 is no failure. */
  type ExitCode = int

  const BAD_DATA: ExitCode := 110
  const BAD_SIZE: ExitCode := 120
  const SHORT_READ: ExitCode := 141
  const LITE_BUG: ExitCode := 149
  const SHORT_WRITE: ExitCode := 151
  const SHORT_IMAGE: ExitCode := 172
  const LITE_MAP_BUG: ExitCode := 200

  // the operations, as the log names them
  const OP_READ := 1
  const OP_WRITE := 2
  const OP_TRUNCATE := 3
  const OP_MAPREAD := 5
  const OP_MAPWRITE := 6
  const OP_SKIPPED := 7

  /** `log_entry`: an operation and its arguments. */
  datatype LogEntry = LogEntry(operation: int, arg0: int, arg1: int, arg2: int)

  /** The command line. */
  datatype CommandLine = CommandLine(
    maxfilelen: nat, maxoplen: nat, simulated: nat, readbdy: nat, writebdy: nat, truncbdy: nat, style: nat,
    lite: bool, mappedReads: bool, mappedWrites: bool, randomOpLen: bool, sizeChecks: bool)
  {
    /** The checks on each option, and the one that is missing: the small truncations of
        `-s 1` must stay inside the buffers. */
    predicate Accepted() {
      && 0 < maxfilelen < 0x8000_0000 && 0 < maxoplen < 0x8000_0000
      && 0 < readbdy && 0 < writebdy && 0 < truncbdy
      && (!lite && style != 0 ==> Aligned(maxoplen, truncbdy) <= maxfilelen)
    }
  }

  /** What one round does. */
  datatype Operation =
    | Read(offset: nat, size: nat)
    | MapRead(offset: nat, size: nat)
    | Write(offset: nat, size: nat)
    | MapWrite(offset: nat, size: nat)
    | Truncate(size: nat)

  class Exerciser {
    // the command line
    const maxfilelen: nat   // -l
    const maxoplen: nat     // -o
    const simulated: nat    // -b
    const readbdy: nat      // -r
    const writebdy: nat     // -w
    const truncbdy: nat     // -t
    const style: nat        // -s
    const lite: bool        // -L
    const mappedReads: bool   // -R turns it off
    const mappedWrites: bool  // -W turns it off
    const randomOpLen: bool   // -O turns it off
    const sizeChecks: bool    // -n turns it off

    // the state
    const originalBuf: array<Byte>
    ghost const original: Bytes  // what it is filled with
    const goodBuf: array<Byte>
    const tempBuf: array<Byte>
    const file: RealFile
    var fileSize: nat
    var testcalls: nat
    var log: seq<LogEntry>

    /** `main` up to the loop: in lite mode the existing file `f` fixes the length and is
        overwritten with zeros, else the file is emptied. */
    constructor (o: CommandLine, f: Bytes, random: nat -> Byte)
      requires o.Accepted() && (o.lite ==> 0 < |f| < 0x8000_0000)
      ensures Sound() && testcalls == 0 && log == []
      ensures maxfilelen == if o.lite then |f| else o.maxfilelen
      ensures maxoplen == o.maxoplen && simulated == o.simulated && style == o.style && lite == o.lite
      ensures readbdy == o.readbdy && writebdy == o.writebdy && truncbdy == o.truncbdy
      ensures mappedReads == o.mappedReads && mappedWrites == o.mappedWrites
      ensures randomOpLen == o.randomOpLen && sizeChecks == o.sizeChecks
      ensures |Good()| == (if o.lite then |f| else 0) && forall k :: 0 <= k < |Good()| ==> Good()[k] == 0
      ensures file.bytes == Good()
      ensures |original| == maxfilelen && forall k :: 0 <= k < maxfilelen ==> original[k] == random(k)
      ensures fresh(goodBuf) && fresh(tempBuf) && fresh(originalBuf) && fresh(file)
    {
      var length := if o.lite then |f| else o.maxfilelen;
      maxfilelen, maxoplen, simulated, style := length, o.maxoplen, o.simulated, o.style;
      readbdy, writebdy, truncbdy := o.readbdy, o.writebdy, o.truncbdy;
      lite, mappedReads, mappedWrites := o.lite, o.mappedReads, o.mappedWrites;
      randomOpLen, sizeChecks := o.randomOpLen, o.sizeChecks;
      var first := new Byte[length](i requires i >= 0 => random(i));
      originalBuf := first;
      var good := new Byte[length](_ => 0);
      goodBuf := good;
      tempBuf := new Byte[o.maxoplen](_ => 0);
      fileSize := if o.lite then length else 0;
      testcalls := 0;
      log := [];
      file := new RealFile(if o.lite then WriteAt(f, 0, good[..]) else []);
      original := first[..];
    }

    /** The options are in range, the buffers are apart, and the data fits them. */
    ghost predicate Valid()
      reads this, originalBuf
    {
      && 0 < maxfilelen < 0x8000_0000 && 0 < maxoplen < 0x8000_0000
      && 0 < readbdy && 0 < writebdy && 0 < truncbdy
      && originalBuf.Length == goodBuf.Length == maxfilelen && tempBuf.Length == maxoplen
      && originalBuf != goodBuf && originalBuf != tempBuf && goodBuf != tempBuf
      && originalBuf[..] == original
      && fileSize <= maxfilelen
      && (lite ==> fileSize == maxfilelen)
      && (!lite && style != 0 ==> Aligned(maxoplen, truncbdy) <= maxfilelen)
    }

    /** The good data. */
    ghost function Good(): Bytes
      requires fileSize <= goodBuf.Length
      reads this, goodBuf
    {
      goodBuf[..fileSize]
    }

    /** Once real operations have begun, the file is exactly the good data. */
    ghost predicate Synced()
      requires fileSize <= goodBuf.Length
      reads this, goodBuf, file
    {
      testcalls > simulated || simulated == 0 ==> file.bytes == Good()
    }

    ghost predicate Sound()
      reads this, originalBuf, goodBuf, file
    {
      Valid() && Synced() && (lite ==> |file.bytes| == maxfilelen)
    }

    /** In a real round, the file is long enough to be mapped. */
    ghost predicate Ready()
      reads this, originalBuf, file
    {
      Valid() && (testcalls > simulated ==> |file.bytes| >= fileSize)
    }

    // ----- what a run should do to the good data ----------------------------------------------

    /** The operation fits a file of length `n`. */
    predicate Fits(op: Operation, n: nat)
      requires truncbdy > 0
    {
      match op
      case Read(offset, size) => offset + size <= n && size <= maxoplen
      case MapRead(offset, size) => offset + size <= n && size <= maxoplen
      case Write(offset, size) => offset + size <= maxfilelen
      case MapWrite(offset, size) => offset + size <= maxfilelen
      case Truncate(size) => !lite && Aligned(size, truncbdy) <= maxfilelen
    }

    /** The operation that kind `op` and the draws `d` and `e` select for a file of length
        `n`. */
    function Chosen(n: nat, op: nat, d: nat, e: nat): (r: Operation)
      requires 0 < maxfilelen && 0 < truncbdy
      requires !lite && style != 0 ==> Aligned(maxoplen, truncbdy) <= maxfilelen
      ensures Fits(r, n)
    {
      var size := if randomOpLen then d % (maxoplen + 1) else maxoplen;
      if !lite && op == 3 then
        AlignedBelow(d % maxfilelen, maxfilelen, truncbdy);
        AlignedBelow(size, maxoplen, truncbdy);
        Truncate(if style == 0 then d % maxfilelen else size)
      else Accessed(n, op, size, e)
    }

    /** A read or a write of at most `size` bytes. */
    function Accessed(n: nat, op: nat, size: nat, e: nat): (r: Operation)
      requires 0 < maxfilelen && 0 < truncbdy && size <= maxoplen
      ensures Fits(r, n) && !r.Truncate?
    {
      if op == 1 || op == (if lite then 3 else 4) then Put(op, e % maxfilelen, size)
      else Get(op, if n == 0 then 0 else e % n, size, n)
    }

    /** A write, cut at the maximal length. */
    function Put(op: nat, offset: nat, size: nat): Operation
      requires offset < maxfilelen
    {
      var most := if offset + size > maxfilelen then maxfilelen - offset else size;
      if op == 1 then Write(offset, most) else MapWrite(offset, most)
    }

    /** A read, cut at the length `n` of the file. */
    function Get(op: nat, offset: nat, size: nat, n: nat): Operation
      requires offset <= n
    {
      var most := if offset + size > n then n - offset else size;
      if op == 0 then Read(offset, most) else MapRead(offset, most)
    }

    /** The kind that the first draw selects. */
    function Kind(rv: nat): nat {
      var op := rv % (3 + (if lite then 0 else 1) + (if mappedWrites then 1 else 0));
      if op == 2 && !mappedReads then 0 else op
    }

    /** The good data after round `n` does `op`. */
    ghost function Effect(good: Bytes, op: Operation, n: nat): (r: Bytes)
      requires truncbdy > 0 && writebdy > 0 && |good| <= maxfilelen == |original| && Fits(op, |good|)
      ensures |r| <= maxfilelen
    {
      match op
      case Read(_, _) => good
      case MapRead(_, _) => good
      case Write(offset, size) => Stamped(good, Aligned(offset, writebdy), size, n, original)
      case MapWrite(offset, size) => Stamped(good, Aligned(offset, writebdy), size, n, original)
      case Truncate(size) => Resize(good, Aligned(size, truncbdy))
    }

    /** The good data after round `n`, with these draws. */
    ghost function Round(good: Bytes, n: nat, draws: (nat, nat, nat)): (r: Bytes)
      requires 0 < maxfilelen == |original| && 0 < truncbdy && 0 < writebdy && |good| <= maxfilelen
      requires !lite && style != 0 ==> Aligned(maxoplen, truncbdy) <= maxfilelen
      ensures |r| <= maxfilelen
    {
      Effect(good, Drawn(|good|, draws), n)
    }

    /** The operation that these draws select for a file of length `n`. */
    function Drawn(n: nat, draws: (nat, nat, nat)): (r: Operation)
      requires 0 < maxfilelen && 0 < truncbdy
      requires !lite && style != 0 ==> Aligned(maxoplen, truncbdy) <= maxfilelen
      ensures Fits(r, n)
    {
      Chosen(n, Kind(draws.0), draws.1, draws.2)
    }

    /** What the operation logs, on a file of length `n`. */
    function Entry(op: Operation, n: nat): LogEntry
      requires 0 < readbdy && 0 < writebdy && 0 < truncbdy
    {
      match op
      case Read(offset, size) => ReadEntry(OP_READ, Aligned(offset, readbdy), size, n)
      case MapRead(offset, size) => ReadEntry(OP_MAPREAD, Aligned(offset, readbdy), size, n)
      case Write(offset, size) => WriteEntry(OP_WRITE, Aligned(offset, writebdy), size, n)
      case MapWrite(offset, size) => WriteEntry(OP_MAPWRITE, Aligned(offset, writebdy), size, 0)
      case Truncate(size) => LogEntry(OP_TRUNCATE, Aligned(size, truncbdy), n, 0)
    }

    /** The operation reads bytes of the file that are not the good data. */
    predicate Bad(op: Operation, good: Bytes, bytes: Bytes)
      requires 0 < readbdy
    {
      (op.Read? || op.MapRead?) && Unlike(good, bytes, Aligned(op.offset, readbdy), op.size)
    }

    /** The code that the operation ends with. */
    ghost function Verdict(op: Operation): ExitCode
      requires Valid() && fileSize <= goodBuf.Length
      reads this, originalBuf, goodBuf, file
    {
      if testcalls > simulated && Bad(op, Good(), file.bytes) then BAD_DATA else 0
    }

    /** The log of the rounds with these draws, the first of them round `n + 1`. */
    ghost function Logs(good: Bytes, n: nat, draws: seq<(nat, nat, nat)>): (r: seq<LogEntry>)
      requires 0 < maxfilelen == |original| && 0 < truncbdy && 0 < writebdy && 0 < readbdy && |good| <= maxfilelen
      requires !lite && style != 0 ==> Aligned(maxoplen, truncbdy) <= maxfilelen
      ensures |r| == |draws|
    {
      if draws == [] then []
      else
        var i := |draws| - 1;
        Logs(good, n, draws[..i])
        + [Entry(Drawn(|Replay(good, n, draws[..i])|, draws[i]), |Replay(good, n, draws[..i])|)]
    }

    /** The good data after the rounds with these draws, the first of them round `n + 1`. */
    ghost function Replay(good: Bytes, n: nat, draws: seq<(nat, nat, nat)>): (r: Bytes)
      requires 0 < maxfilelen == |original| && 0 < truncbdy && 0 < writebdy && |good| <= maxfilelen
      requires !lite && style != 0 ==> Aligned(maxoplen, truncbdy) <= maxfilelen
      ensures |r| <= maxfilelen
    {
      if draws == [] then good
      else
        var i := |draws| - 1;
        Round(Replay(good, n, draws[..i]), n + |draws|, draws[i])
    }

    lemma {:induction false} ReplayStep(good: Bytes, n: nat, draws: seq<(nat, nat, nat)>, i: nat)
      requires 0 < maxfilelen == |original| && 0 < truncbdy && 0 < writebdy && 0 < readbdy && |good| <= maxfilelen
      requires i < |draws|
      requires !lite && style != 0 ==> Aligned(maxoplen, truncbdy) <= maxfilelen
      ensures Replay(good, n, draws[..i + 1]) == Round(Replay(good, n, draws[..i]), n + i + 1, draws[i])
      ensures var len := |Replay(good, n, draws[..i])|;
              Logs(good, n, draws[..i + 1]) == Logs(good, n, draws[..i]) + [Entry(Drawn(len, draws[i]), len)]
    {
      hide Round, Drawn, Entry;
      assert draws[..i + 1][..i] == draws[..i];
    }

    // ----- the good data ---------------------------------------------------------------

    /** `gendata`: the operation's number in every byte, mixed with the original data in
        the odd ones. */
    method GenData(offset: nat, size: nat)
      requires Valid() && offset + size <= maxfilelen
      modifies goodBuf
      ensures forall k :: 0 <= k < goodBuf.Length ==>
        goodBuf[k] == if offset <= k < offset + size then Stamp(testcalls, k, originalBuf[k]) else old(goodBuf[k])
    {
      var at, left := offset, size;
      while left > 0
        invariant 0 <= left <= size && at == offset + size - left
        invariant forall k :: 0 <= k < goodBuf.Length ==>
          goodBuf[k] == if offset <= k < at then Stamp(testcalls, k, originalBuf[k]) else old(goodBuf[k])
      {
        goodBuf[at] := testcalls % 256;
        if at % 2 != 0 {
          var sum: int := goodBuf[at];
          goodBuf[at] := (sum + originalBuf[at]) % 256;
        }
        at := at + 1;
        left := left - 1;
      }
    }

    /** `memset(good_buf + from, 0, to - from)`. */
    method ZeroGood(from: nat, to: nat)
      requires from <= to <= goodBuf.Length
      modifies goodBuf
      ensures forall k :: 0 <= k < goodBuf.Length ==>
        goodBuf[k] == if from <= k < to then 0 else old(goodBuf[k])
    {
      var k := from;
      while k < to
        invariant from <= k <= to
        invariant forall j :: 0 <= j < goodBuf.Length ==>
          goodBuf[j] == if from <= j < k then 0 else old(goodBuf[j])
      {
        goodBuf[k] := 0;
        k := k + 1;
      }
    }

    /** The part that `dowrite` and `domapwrite` share: generate, fill the hole, extend. */
    method Generate(offset: nat, size: nat) returns (grew: bool, ghost data: Bytes)
      requires Valid() && 0 < size && offset + size <= maxfilelen
      modifies goodBuf, `fileSize
      ensures Valid() && grew == (old(fileSize) < offset + size)
      ensures fileSize == if grew then offset + size else old(fileSize)
      ensures data == Stamps(testcalls, original, offset, size) == goodBuf[offset..offset + size]
      ensures Good() == WriteAt(old(Good()), offset, data)
    {
      ghost var before := Good();
      GenData(offset, size);
      grew := fileSize < offset + size;
      if grew {
        if fileSize < offset {
          ZeroGood(fileSize, offset);
        }
        fileSize := offset + size;
      }
      data := Stamps(testcalls, original, offset, size);
      assert goodBuf[offset..offset + size] == data;
      WriteIs(before, offset, data, Good());
    }

    // ----- checks ----------------------------------------------------------------------------

    /** `check_buffers`: compare what was read with the good data. */
    method CheckBuffers(offset: nat, size: nat) returns (code: ExitCode)
      requires offset + size <= goodBuf.Length && size <= tempBuf.Length
      ensures code == if goodBuf[offset..offset + size] == tempBuf[..size] then 0 else BAD_DATA
    {
      var k := 0;
      while k < size
        invariant 0 <= k <= size
        invariant forall j :: 0 <= j < k ==> goodBuf[offset + j] == tempBuf[j]
      {
        if goodBuf[offset + k] != tempBuf[k] {
          assert goodBuf[offset..offset + size][k] != tempBuf[..size][k];
          return BAD_DATA;
        }
        k := k + 1;
      }
      code := 0;
    }

    /** `check_size`. */
    method CheckSize() returns (code: ExitCode)
      ensures code == if fileSize == |file.bytes| then 0 else BAD_SIZE
    {
      code := if fileSize != |file.bytes| then BAD_SIZE else 0;
    }

    /** `memcpy(temp_buf, data, size)`. */
    method Fill(data: Bytes)
      requires |data| <= tempBuf.Length
      modifies tempBuf
      ensures tempBuf[..|data|] == data
    {
      var k := 0;
      while k < |data|
        invariant 0 <= k <= |data| && tempBuf[..k] == data[..k]
      {
        tempBuf[k] := data[k];
        k := k + 1;
      }
    }

    // ----- operations -------------------------------------------------------------------------

    /** `doread`. */
    method DoRead(offset: nat, size: nat) returns (code: ExitCode)
      requires Ready() && testcalls > 0 && size <= maxoplen
      modifies tempBuf, `log
      ensures code == old(Verdict(Read(offset, size)))
      ensures log == old(log) + [Entry(Read(offset, size), fileSize)]
    {
      hide ReadEntry;
      var past := offset % readbdy;
      assert offset - past == Aligned(offset, readbdy);
      code := ReadFrom(offset - past, size);
    }

    /** `doread` from an aligned offset. */
    method ReadFrom(from: nat, size: nat) returns (code: ExitCode)
      requires Ready() && size <= maxoplen
      modifies tempBuf, `log
      ensures log == old(log) + [ReadEntry(OP_READ, from, size, fileSize)]
      ensures code == if testcalls > simulated && Unlike(Good(), file.bytes, from, size) then BAD_DATA else 0
    {
      if size == 0 || size + from > fileSize {
        log := log + [LogEntry(OP_SKIPPED, OP_READ, from, size)];
        return 0;
      }
      log := log + [LogEntry(OP_READ, from, size, 0)];
      if testcalls <= simulated {
        return 0;
      }
      var data := file.Read(from, size);
      if |data| != size {
        return SHORT_READ;
      }
      assert data == file.bytes[from..from + size] && Good()[from..from + size] == goodBuf[from..from + size];
      Fill(data);
      code := CheckBuffers(from, size);
    }

    /** `domapread`. */
    method DoMapRead(offset: nat, size: nat) returns (code: ExitCode)
      requires Ready() && testcalls > 0 && size <= maxoplen
      modifies tempBuf, `log
      ensures code == old(Verdict(MapRead(offset, size)))
      ensures log == old(log) + [Entry(MapRead(offset, size), fileSize)]
    {
      hide ReadEntry;
      var past := offset % readbdy;
      assert offset - past == Aligned(offset, readbdy);
      code := MapReadFrom(offset - past, size);
    }

    /** `domapread` from an aligned offset. */
    method MapReadFrom(from: nat, size: nat) returns (code: ExitCode)
      requires Ready() && size <= maxoplen
      modifies tempBuf, `log
      ensures log == old(log) + [ReadEntry(OP_MAPREAD, from, size, fileSize)]
      ensures code == if testcalls > simulated && Unlike(Good(), file.bytes, from, size) then BAD_DATA else 0
    {
      if size == 0 || size + from > fileSize {
        log := log + [LogEntry(OP_SKIPPED, OP_MAPREAD, from, size)];
        return 0;
      }
      log := log + [LogEntry(OP_MAPREAD, from, size, 0)];
      if testcalls <= simulated {
        return 0;
      }
      var data := file.MapRead(from, size);
      assert data == file.bytes[from..from + size] && Good()[from..from + size] == goodBuf[from..from + size];
      Fill(data);
      code := CheckBuffers(from, size);
    }

    /** `dowrite`. */
    method DoWrite(offset: nat, size: nat) returns (code: ExitCode)
      requires Ready() && testcalls > 0 && offset + size <= maxfilelen
      modifies goodBuf, `fileSize, `log, file
      ensures Ready() && code == 0 && (old(Sound()) ==> Sound())
      ensures Good() == Effect(old(Good()), Write(offset, size), testcalls)
      ensures log == old(log) + [Entry(Write(offset, size), old(fileSize))]
      ensures testcalls <= simulated ==> file.bytes == old(file.bytes)
    {
      hide Stamped;
      var past := offset % writebdy;
      if size == 0 {
        log := log + [LogEntry(OP_SKIPPED, OP_WRITE, offset - past, size)];
        return 0;
      }
      log := log + [LogEntry(OP_WRITE, offset - past, size, fileSize)];
      code := WriteOut(offset - past, size);
    }

    /** `dowrite` from an aligned offset. */
    method WriteOut(from: nat, size: nat) returns (code: ExitCode)
      requires Ready() && testcalls > 0 && 0 < size && from + size <= maxfilelen
      modifies goodBuf, `fileSize, file
      ensures Ready() && code == 0 && (old(Sound()) ==> Sound())
      ensures Good() == Stamped(old(Good()), from, size, testcalls, original)
      ensures testcalls <= simulated ==> file.bytes == old(file.bytes)
    {
      var grew, data := Generate(from, size);
      if grew && lite {
        return LITE_BUG;
      }
      if testcalls <= simulated {
        return 0;
      }
      var n := file.Write(from, goodBuf[from..from + size]);
      if n != size {
        return SHORT_WRITE;
      }
      code := 0;
    }

    /** `domapwrite`: the file is extended first, since stores cannot extend it. */
    method DoMapWrite(offset: nat, size: nat) returns (code: ExitCode)
      requires Ready() && testcalls > 0 && offset + size <= maxfilelen
      modifies goodBuf, `fileSize, `log, file
      ensures Ready() && code == 0 && (old(Sound()) ==> Sound())
      ensures Good() == Effect(old(Good()), MapWrite(offset, size), testcalls)
      ensures log == old(log) + [Entry(MapWrite(offset, size), old(fileSize))]
      ensures testcalls <= simulated ==> file.bytes == old(file.bytes)
    {
      hide Stamped;
      var past := offset % writebdy;
      if size == 0 {
        log := log + [LogEntry(OP_SKIPPED, OP_MAPWRITE, offset - past, size)];
        return 0;
      }
      log := log + [LogEntry(OP_MAPWRITE, offset - past, size, 0)];
      code := MapWriteOut(offset - past, size);
    }

    /** `domapwrite` from an aligned offset. */
    method MapWriteOut(from: nat, size: nat) returns (code: ExitCode)
      requires Ready() && testcalls > 0 && 0 < size && from + size <= maxfilelen
      modifies goodBuf, `fileSize, file
      ensures Ready() && code == 0 && (old(Sound()) ==> Sound())
      ensures Good() == Stamped(old(Good()), from, size, testcalls, original)
      ensures testcalls <= simulated ==> file.bytes == old(file.bytes)
    {
      var grew, data := Generate(from, size);
      if grew && lite {
        return LITE_MAP_BUG;
      }
      if testcalls <= simulated {
        return 0;
      }
      ghost var before := file.bytes;
      if grew {
        file.Truncate(fileSize);
      }
      file.MapWrite(from, goodBuf[from..from + size]);
      if |before| == old(fileSize) {
        MapWriteLaw(before, from, data, if grew then Resize(before, from + size) else before);
      }
      code := 0;
    }

    /** `dotruncate`: growing exposes zeros, whatever the buffer held there. */
    method DoTruncate(size: nat) returns (code: ExitCode)
      requires Ready() && testcalls > 0 && !lite && Aligned(size, truncbdy) <= maxfilelen
      modifies goodBuf, `fileSize, `log, file
      ensures Ready() && code == 0 && (old(Sound()) ==> Sound())
      ensures Good() == Effect(old(Good()), Truncate(size), testcalls)
      ensures log == old(log) + [Entry(Truncate(size), old(fileSize))]
      ensures testcalls <= simulated ==> file.bytes == old(file.bytes)
    {
      var past := size % truncbdy;
      log := log + [LogEntry(OP_TRUNCATE, size - past, fileSize, 0)];
      code := TruncateTo(size - past);
    }

    /** `dotruncate` to an aligned length. */
    method TruncateTo(to: nat) returns (code: ExitCode)
      requires Ready() && testcalls > 0 && !lite && to <= maxfilelen
      modifies goodBuf, `fileSize, file
      ensures Ready() && code == 0 && (old(Sound()) ==> Sound()) && Good() == Resize(old(Good()), to)
      ensures testcalls <= simulated ==> file.bytes == old(file.bytes)
    {
      ghost var before := Good();
      if to > fileSize {
        ZeroGood(fileSize, to);
      }
      fileSize := to;
      assert Good() == Resize(before, to);
      if testcalls > simulated {
        file.Truncate(to);
      }
      code := 0;
    }

    /** `writefileimage`: bring the file up to what the simulated operations have made of the
        good data. */
    method WriteFileImage() returns (code: ExitCode)
      requires Valid()
      modifies file
      ensures code == 0 && |file.bytes| >= fileSize && file.bytes[..fileSize] == Good()
      ensures !lite || old(|file.bytes|) <= fileSize ==> file.bytes == Good()
    {
      var n := file.Write(0, goodBuf[..fileSize]);
      if n != fileSize {
        return SHORT_IMAGE;
      }
      if !lite {
        file.Truncate(fileSize);
      }
      code := 0;
    }

    // ----- runs ---------------------------------------------------------------------------------

    /** The branches of `test`, for an operation of kind `op`. */
    method Operate(op: nat, d: nat, e: nat) returns (code: ExitCode)
      requires Ready() && testcalls > 0
      modifies goodBuf, tempBuf, `fileSize, `log, file
      ensures Ready() && (old(Sound()) ==> Sound()) && code == old(Verdict(Chosen(fileSize, op, d, e)))
      ensures Good() == Effect(old(Good()), Chosen(old(fileSize), op, d, e), testcalls)
      ensures log == old(log) + [Entry(Chosen(old(fileSize), op, d, e), old(fileSize))]
      ensures testcalls <= simulated ==> file.bytes == old(file.bytes)
    {
      if !lite && op == 3 && style == 0 {
        var to := d % maxfilelen;
        AlignedBelow(to, maxfilelen, truncbdy);
        code := DoTruncate(to);
        return;
      }
      var size := maxoplen;
      if randomOpLen {
        size := d % (maxoplen + 1);
      }
      if !lite && op == 3 {
        AlignedBelow(size, maxoplen, truncbdy);
        code := DoTruncate(size);
      } else {
        code := Access(op, size, e);
      }
    }

    /** A read or a write, at a random place. */
    method Access(op: nat, length: nat, e: nat) returns (code: ExitCode)
      requires Ready() && testcalls > 0 && length <= maxoplen
      modifies goodBuf, tempBuf, `fileSize, `log, file
      ensures Ready() && (old(Sound()) ==> Sound()) && code == old(Verdict(Accessed(fileSize, op, length, e)))
      ensures Good() == Effect(old(Good()), Accessed(old(fileSize), op, length, e), testcalls)
      ensures log == old(log) + [Entry(Accessed(old(fileSize), op, length, e), old(fileSize))]
      ensures testcalls <= simulated ==> file.bytes == old(file.bytes)
    {
      if op == 1 || op == (if lite then 3 else 4) {
        var offset := e % maxfilelen;
        code := PutAt(op, offset, length);
      } else {
        var offset := 0;
        if fileSize != 0 {
          offset := e % fileSize;
        }
        code := GetAt(op, offset, length);
      }
    }

    method PutAt(op: nat, offset: nat, length: nat) returns (code: ExitCode)
      requires Ready() && testcalls > 0 && offset < maxfilelen
      modifies goodBuf, `fileSize, `log, file
      ensures Ready() && (old(Sound()) ==> Sound()) && code == 0
      ensures Good() == Effect(old(Good()), Put(op, offset, length), testcalls)
      ensures log == old(log) + [Entry(Put(op, offset, length), old(fileSize))]
      ensures testcalls <= simulated ==> file.bytes == old(file.bytes)
    {
      hide Effect, Entry;
      var size := length;
      if offset + size > maxfilelen {
        size := maxfilelen - offset;
      }
      if op != 1 {
        code := DoMapWrite(offset, size);
      } else {
        code := DoWrite(offset, size);
      }
    }

    method GetAt(op: nat, offset: nat, length: nat) returns (code: ExitCode)
      requires Ready() && testcalls > 0 && offset <= fileSize && length <= maxoplen
      modifies tempBuf, `log
      ensures Ready() && (old(Sound()) ==> Sound()) && Good() == old(Good())
      ensures code == old(Verdict(Get(op, offset, length, fileSize)))
      ensures log == old(log) + [Entry(Get(op, offset, length, old(fileSize)), old(fileSize))]
      ensures testcalls <= simulated ==> file.bytes == old(file.bytes)
    {
      hide Entry, Bad, Effect;
      var size := length;
      if offset + size > fileSize {
        size := fileSize - offset;
      }
      if op != 0 {
        code := DoMapRead(offset, size);
      } else {
        code := DoRead(offset, size);
      }
    }

    /** The rounds so far were real ones. */
    predicate Real()
      reads `testcalls
    {
      testcalls > simulated || simulated == 0
    }

    /** `test`, with the results of its calls of `random`.  It finds exactly the damage there is:
        a read that gets other bytes than the good data, and a file of another length. */
    method Test(rv: nat, d: nat, e: nat) returns (code: ExitCode)
      requires Valid() && (Real() ==> |file.bytes| >= fileSize)
      modifies goodBuf, tempBuf, `fileSize, `testcalls, `log, file
      ensures Valid() && testcalls == old(testcalls) + 1
      ensures old(Sound()) ==> Sound() && code == 0 && file.bytes == if testcalls > simulated then Good() else old(file.bytes)
      ensures code == 110 || code == if sizeChecks && testcalls > simulated && |file.bytes| != fileSize then 120 else 0
      ensures log == old(log) + [Entry(Drawn(old(fileSize), (rv, d, e)), old(fileSize))]
      ensures Does(testcalls, old(Good()), Good(), rv, d, e, log[|log| - 1],
                   if old(testcalls) > simulated || simulated == 0 then old(file.bytes) else old(Good()), code == 110)
      ensures Good() == Round(old(Good()), testcalls, (rv, d, e))
    {
      hide Chosen, Effect, Entry, Bad, Does;
      var op := rv % (3 + (if lite then 0 else 1) + (if mappedWrites then 1 else 0));
      if op == 2 && !mappedReads {
        op := 0;
      }
      ghost var before, bytes := Good(), if Real() then file.bytes else Good();
      if simulated > 0 && testcalls == simulated {
        code := WriteFileImage();
        if code != 0 {
          return;
        }
      }
      testcalls := testcalls + 1;
      assert op == Kind(rv);
      NothingBad(Drawn(fileSize, (rv, d, e)), before, before);
      if old(testcalls) == simulated > 0 {
        NothingBad(Drawn(fileSize, (rv, d, e)), before, file.bytes);
      }
      code := Operate(op, d, e);
      RoundDoes(testcalls, before, rv, d, e, bytes);
      if code == 0 && sizeChecks && testcalls > simulated {
        code := CheckSize();
      }
    }

    /** The loop of `main`, over any results of `random`: no false alarm, and the good data
        is what the operations drawn make of it. */
    method RunTests(draws: seq<(nat, nat, nat)>) returns (code: ExitCode)
      requires Sound()
      modifies goodBuf, tempBuf, `fileSize, `testcalls, `log, file
      ensures Sound() && code == 0 && testcalls == old(testcalls) + |draws|
      ensures Good() == Replay(old(Good()), old(testcalls), draws)
      ensures log == old(log) + Logs(old(Good()), old(testcalls), draws)
      ensures draws != [] ==> file.bytes == if testcalls > simulated then Good() else old(file.bytes)
    {
      hide Round, Entry, Drawn, Does;
      code := 0;
      ghost var before, calls := Good(), testcalls;
      for i := 0 to |draws|
        invariant Sound() && code == 0 && testcalls == old(testcalls) + i
        invariant Good() == Replay(before, calls, draws[..i])
        invariant log == old(log) + Logs(before, calls, draws[..i])
        invariant file.bytes == if i > 0 && testcalls > simulated then Good() else old(file.bytes)
      {
        ReplayStep(before, calls, draws, i);
        code := Test(draws[i].0, draws[i].1, draws[i].2);
        if code != 0 {
          return;
        }
      }
      assert draws[..|draws|] == draws;
    }

    // ----- the same, from the draws and the options alone --------------------------------------

    /** What round `n` does to the good data `before`, what it logs, and whether it finds that
        `bytes`, the bytes of the file, are not the good data. */
    ghost predicate Does(n: nat, before: Bytes, after: Bytes, rv: nat, d: nat, e: nat, entry: LogEntry, bytes: Bytes, bad: bool)
      requires Valid() && |before| <= maxfilelen
      reads this, originalBuf
    {
      var r := rv % (if lite then if mappedWrites then 4 else 3 else if mappedWrites then 5 else 4);
      Selects(n, r, before, after, if randomOpLen then d % (maxoplen + 1) else maxoplen, d, e, entry, bytes, bad)
    }

    /** What remainder `r` selects, with `size` as the size. */
    ghost predicate Selects(n: nat, r: nat, before: Bytes, after: Bytes, size: nat, d: nat, e: nat, entry: LogEntry,
                            bytes: Bytes, bad: bool)
      requires Valid() && |before| <= maxfilelen
      reads this, originalBuf
    {
      && (r == 0 ==> Reads(1, before, after, size, e, entry, bytes, bad))
      && (r == 1 ==> Writes(n, 2, before, after, size, e, entry, |before|) && !bad)
      && (r == 2 ==> Reads(if mappedReads then 5 else 1, before, after, size, e, entry, bytes, bad))
      && (r == 3 && lite ==> Writes(n, 6, before, after, size, e, entry, 0) && !bad)
      && (r == 3 && !lite ==> Truncates(before, after, if style == 0 then d % maxfilelen else size, entry) && !bad)
      && (r == 4 ==> Writes(n, 6, before, after, size, e, entry, 0) && !bad)
    }

    /** A read of at most `size` bytes at the draw `e` leaves the good data alone. */
    ghost predicate Reads(code: int, before: Bytes, after: Bytes, size: nat, e: nat, entry: LogEntry, bytes: Bytes, bad: bool)
      requires readbdy > 0
    {
      var at := if |before| == 0 then 0 else e % |before|;
      var most := if size < |before| - at then size else |before| - at;
      after == before && Looks(code, before, at - at % readbdy, most, entry, bytes, bad)
    }

    /** `most` bytes at `from` are read and compared, unless there are none to read. */
    ghost predicate Looks(code: int, before: Bytes, from: nat, most: nat, entry: LogEntry, bytes: Bytes, bad: bool) {
      && entry == (if most == 0 then LogEntry(7, code, from, 0) else LogEntry(code, from, most, 0))
      && (bad <==> Differ(before, bytes, from, most))
    }

    /** A write of at most `size` bytes at the draw `e`: the number of the round in the even
        bytes, with the original data added in the odd ones. */
    ghost predicate Writes(n: nat, code: int, before: Bytes, after: Bytes, size: nat, e: nat, entry: LogEntry, was: int)
      requires 0 < maxfilelen == |original| && writebdy > 0 && |before| <= maxfilelen
    {
      var at := e % maxfilelen;
      var most := if size < maxfilelen - at then size else maxfilelen - at;
      && entry == (if most == 0 then LogEntry(7, code, at - at % writebdy, 0) else LogEntry(code, at - at % writebdy, most, was))
      && Written(before, after, at - at % writebdy, most, n, original)
    }

    /** A truncation, to the boundary at or below `size`. */
    ghost predicate Truncates(before: Bytes, after: Bytes, size: nat, entry: LogEntry)
      requires truncbdy > 0
    {
      && entry == LogEntry(3, size - size % truncbdy, |before|, 0)
      && |after| == size - size % truncbdy
      && forall k :: 0 <= k < |after| ==> after[k] == if k < |before| then before[k] else 0
    }

    lemma {:induction false} ReadDoes(n: nat, op: nat, before: Bytes, size: nat, e: nat, bytes: Bytes)
      requires Valid() && |before| <= maxfilelen && size <= maxoplen && op != 1
      requires |before| <= |bytes|
      ensures var at := if |before| == 0 then 0 else e % |before|;
              var o := Get(op, at, size, |before|);
              Reads(if op == 0 then 1 else 5, before, Effect(before, o, n), size, e, Entry(o, |before|),
                    bytes, Bad(o, before, bytes))
    {
      hide Looks, Bad, Entry;
      var at := if |before| == 0 then 0 else e % |before|;
      LookedAt(n, op, before, at, size, bytes);
    }

    lemma {:induction false} LookedAt(n: nat, op: nat, before: Bytes, at: nat, size: nat, bytes: Bytes)
      requires Valid() && at <= |before| <= maxfilelen && size <= maxoplen && op != 1
      requires |before| <= |bytes|
      ensures var o := Get(op, at, size, |before|);
              Looks(if op == 0 then 1 else 5, before, Aligned(at, readbdy), if size < |before| - at then size else |before| - at,
                    Entry(o, |before|), bytes, Bad(o, before, bytes))
    {
      var o := Get(op, at, size, |before|);
      DifferIs(before, bytes, Aligned(at, readbdy), o.size);
    }

    lemma {:induction false} WriteDoes(n: nat, op: nat, before: Bytes, size: nat, e: nat, bytes: Bytes)
      requires Valid() && |before| <= maxfilelen
      ensures var o := Put(op, e % maxfilelen, size);
              && Fits(o, |before|) && !Bad(o, before, bytes)
              && Writes(n, if op == 1 then 2 else 6, before, Effect(before, o, n), size, e, Entry(o, |before|),
                        if op == 1 then |before| else 0)
    {
      hide Written, Stamped;
      var at := e % maxfilelen;
      StampedIs(before, Aligned(at, writebdy), if at + size > maxfilelen then maxfilelen - at else size, n, original);
    }

    lemma {:induction false} AccessDoes(n: nat, op: nat, before: Bytes, size: nat, e: nat, bytes: Bytes)
      requires Valid() && |before| <= maxfilelen && size <= maxoplen
      requires |before| <= |bytes|
      ensures var o := Accessed(|before|, op, size, e);
              var after := Effect(before, o, n);
              if op == 1 || op == (if lite then 3 else 4) then
                && !Bad(o, before, bytes)
                && Writes(n, if op == 1 then 2 else 6, before, after, size, e, Entry(o, |before|), if op == 1 then |before| else 0)
              else
                Reads(if op == 0 then 1 else 5, before, after, size, e, Entry(o, |before|), bytes, Bad(o, before, bytes))
    {
      hide Reads, Writes, Entry, Effect, Bad, Put, Get;
      if op == 1 || op == (if lite then 3 else 4) {
        WriteDoes(n, op, before, size, e, bytes);
      } else {
        ReadDoes(n, op, before, size, e, bytes);
      }
    }

    lemma {:induction false} TruncateDoes(n: nat, before: Bytes, size: nat)
      requires Valid() && |before| <= maxfilelen && Fits(Truncate(size), |before|)
      ensures Truncates(before, Effect(before, Truncate(size), n), size, Entry(Truncate(size), |before|))
    {
    }

    lemma {:induction false} RoundDoes(n: nat, before: Bytes, rv: nat, d: nat, e: nat, bytes: Bytes)
      requires Valid() && |before| <= maxfilelen
      requires |before| <= |bytes|
      ensures Does(n, before, Round(before, n, (rv, d, e)), rv, d, e, Entry(Drawn(|before|, (rv, d, e)), |before|),
                   bytes, Bad(Drawn(|before|, (rv, d, e)), before, bytes))
    {
      hide Selects, Entry, Effect, Chosen, Kind;
      KindIs(rv);
      ChosenDoes(n, rv % (if lite then if mappedWrites then 4 else 3 else if mappedWrites then 5 else 4), before, d, e, bytes);
    }

    lemma {:induction false} ChosenDoes(n: nat, r: nat, before: Bytes, d: nat, e: nat, bytes: Bytes)
      requires Valid() && |before| <= maxfilelen && r <= (if lite then 3 else 4)
      requires |before| <= |bytes|
      ensures var op := if r == 2 && !mappedReads then 0 else r;
              var o := Chosen(|before|, op, d, e);
              Selects(n, r, before, Effect(before, o, n), if randomOpLen then d % (maxoplen + 1) else maxoplen,
                      d, e, Entry(o, |before|), bytes, Bad(o, before, bytes))
    {
      hide Selects, Aligned, Entry, Effect, Bad, Accessed;
      var size := if randomOpLen then d % (maxoplen + 1) else maxoplen;
      if !lite && r == 3 {
        hide Chosen;
        TruncationDoes(n, before, size, d, e, bytes);
      } else {
        AccessSelects(n, r, before, size, d, e, bytes);
      }
    }

    lemma {:induction false} AccessSelects(n: nat, r: nat, before: Bytes, size: nat, d: nat, e: nat, bytes: Bytes)
      requires Valid() && |before| <= maxfilelen && size <= maxoplen && r <= (if lite then 3 else 4) && (r == 3 ==> lite)
      requires |before| <= |bytes|
      ensures var op := if r == 2 && !mappedReads then 0 else r;
              var o := Accessed(|before|, op, size, e);
              Selects(n, r, before, Effect(before, o, n), size, d, e, Entry(o, |before|), bytes, Bad(o, before, bytes))
    {
      hide Reads, Writes, Truncates, Aligned, Entry, Effect, Bad, Accessed;
      AccessDoes(n, if r == 2 && !mappedReads then 0 else r, before, size, e, bytes);
    }

    lemma {:induction false} TruncationDoes(n: nat, before: Bytes, size: nat, d: nat, e: nat, bytes: Bytes)
      requires Valid() && |before| <= maxfilelen && !lite && size == if randomOpLen then d % (maxoplen + 1) else maxoplen
      ensures var o := Chosen(|before|, 3, d, e);
              Selects(n, 3, before, Effect(before, o, n), size, d, e, Entry(o, |before|), bytes, Bad(o, before, bytes))
    {
      hide Reads, Writes, Truncates, Aligned, Entry, Effect, Accessed;
      assert Chosen(|before|, 3, d, e) == Truncate(if style == 0 then d % maxfilelen else size);
      TruncateDoes(n, before, if style == 0 then d % maxfilelen else size);
    }

    lemma {:induction false} KindIs(rv: nat)
      ensures var r := rv % (if lite then if mappedWrites then 4 else 3 else if mappedWrites then 5 else 4);
              Kind(rv) == (if r == 2 && !mappedReads then 0 else r) && r <= (if lite then 3 else 4)
    {
      assert (if lite then if mappedWrites then 4 else 3 else if mappedWrites then 5 else 4) ==
             (3 + (if lite then 0 else 1) + (if mappedWrites then 1 else 0));
    }

    /** Round by round, a run does to the good data and to the log what the draws say. */
    lemma {:induction false} ReplayDoes(good: Bytes, n: nat, draws: seq<(nat, nat, nat)>, i: nat)
      requires Valid() && |good| <= maxfilelen && i < |draws|
      ensures Replay(good, n, []) == good && Logs(good, n, []) == []
      ensures |Logs(good, n, draws[..i + 1])| == i + 1 && Logs(good, n, draws[..i + 1])[..i] == Logs(good, n, draws[..i])
      ensures Does(n + i + 1, Replay(good, n, draws[..i]), Replay(good, n, draws[..i + 1]),
                   draws[i].0, draws[i].1, draws[i].2, Logs(good, n, draws[..i + 1])[i], Replay(good, n, draws[..i]), false)
    {
      hide Does, Round, Drawn, Entry, Bad;
      var before := Replay(good, n, draws[..i]);
      ReplayStep(good, n, draws, i);
      NothingBad(Drawn(|before|, draws[i]), before, before);
      RoundDoes(n + i + 1, before, draws[i].0, draws[i].1, draws[i].2, before);
    }

    lemma {:induction false} NothingBad(op: Operation, good: Bytes, bytes: Bytes)
      requires 0 < readbdy && |good| <= |bytes| && bytes[..|good|] == good
      ensures !Bad(op, good, bytes)
    {
      if op.Read? || op.MapRead? {
        assert forall k :: 0 <= k < |good| ==> good[k] == bytes[..|good|][k];
        if Aligned(op.offset, readbdy) + op.size <= |good| {
          DifferIs(good, bytes, Aligned(op.offset, readbdy), op.size);
        }
      }
    }

    /** Each operation is drawn, unless an option turns it off. */
    lemma {:induction false} DrawnIff(n: nat)
      requires 0 < maxfilelen && 0 < truncbdy
      requires !lite && style != 0 ==> Aligned(maxoplen, truncbdy) <= maxfilelen
      ensures exists draws :: Drawn(n, draws).Read?
      ensures exists draws :: Drawn(n, draws).Write?
      ensures (exists draws :: Drawn(n, draws).MapRead?) <==> mappedReads
      ensures (exists draws :: Drawn(n, draws).MapWrite?) <==> mappedWrites
      ensures (exists draws :: Drawn(n, draws).Truncate?) <==> !lite
    {
      assert Drawn(n, (0, 0, 0)).Read? && Drawn(n, (1, 0, 0)).Write?;
      assert mappedReads ==> Drawn(n, (2, 0, 0)).MapRead?;
      assert mappedWrites ==> Drawn(n, (if lite then 3 else 4, 0, 0)).MapWrite?;
      assert !lite ==> Drawn(n, (3, 0, 0)).Truncate?;
    }
  }

  /** There are `n` bytes at `from` to compare, and they differ. */
  predicate Unlike(good: Bytes, bytes: Bytes, from: nat, n: nat) {
    0 < n && from + n <= |good| <= |bytes| && bytes[from..from + n] != good[from..from + n]
  }

  ghost predicate Differ(a: Bytes, b: Bytes, from: nat, n: nat) {
    exists k :: from <= k < from + n && k < |a| && k < |b| && a[k] != b[k]
  }

  lemma {:induction false} DifferIs(a: Bytes, b: Bytes, from: nat, n: nat)
    requires from + n <= |a| <= |b|
    ensures Differ(a, b, from, n) <==> b[from..from + n] != a[from..from + n]
  {
    if b[from..from + n] != a[from..from + n] {
      var i :| 0 <= i < n && b[from..from + n][i] != a[from..from + n][i];
      assert a[from + i] != b[from + i];
    } else {
      assert forall k :: from <= k < from + n ==> a[k] == a[from..from + n][k - from] && b[k] == b[from..from + n][k - from];
    }
  }

  /** What a read of `size` bytes logs, on a file of length `n`. */
  function ReadEntry(code: int, from: nat, size: nat, n: nat): LogEntry {
    if size == 0 || from + size > n then LogEntry(OP_SKIPPED, code, from, size) else LogEntry(code, from, size, 0)
  }

  /** What a write of `size` bytes logs, with `was` as the last argument. */
  function WriteEntry(code: int, from: nat, size: nat, was: nat): LogEntry {
    if size == 0 then LogEntry(OP_SKIPPED, code, from, size) else LogEntry(code, from, size, was)
  }

  function Stamp(testcalls: nat, k: nat, original: Byte): Byte {
    if k % 2 != 0 then (testcalls % 256 + original) % 256 else testcalls % 256
  }

  /** The bytes that round `n` generates for a range. */
  function Stamps(n: nat, original: Bytes, from: nat, size: nat): (s: Bytes)
    requires from + size <= |original|
    ensures |s| == size && forall k :: 0 <= k < size ==> s[k] == Stamp(n, from + k, original[from + k])
  {
    if size == 0 then [] else Stamps(n, original, from, size - 1) + [Stamp(n, from + size - 1, original[from + size - 1])]
  }

  /** A write of the bytes that round `n` generates. */
  function Stamped(good: Bytes, from: nat, size: nat, n: nat, original: Bytes): (r: Bytes)
    requires from + size <= |original|
    ensures |r| <= if |good| <= |original| then |original| else |good|
    ensures size == 0 ==> r == good
  {
    WriteAt(good, from, Stamps(n, original, from, size))
  }

  /** `n` bytes at `from` hold the number of the round, with the original data added in the
      odd ones; holes are zeros and the rest is as it was. */
  ghost predicate Written(before: Bytes, after: Bytes, from: nat, n: nat, testcalls: nat, original: Bytes)
    requires from + n <= |original|
  {
    && |after| == (if n == 0 || from + n < |before| then |before| else from + n)
    && forall k :: 0 <= k < |after| ==>
      after[k] == if from <= k < from + n then
          if k % 2 == 0 then testcalls % 256 else (testcalls + original[k]) % 256
        else if k < |before| then before[k]
        else 0
  }

  lemma {:induction false} StampedIs(good: Bytes, from: nat, size: nat, n: nat, original: Bytes)
    requires from + size <= |original|
    ensures Written(good, Stamped(good, from, size, n, original), from, size, n, original)
  {
    if size > 0 {
      var r := Stamped(good, from, size, n, original);
      WriteAtLength(good, from, Stamps(n, original, from, size));
      forall k | 0 <= k < |r|
        ensures r[k] == if from <= k < from + size then
                  if k % 2 == 0 then n % 256 else (n + original[k]) % 256
                else if k < |good| then good[k]
                else 0
      {
        WriteAtByte(good, from, Stamps(n, original, from, size), k);
      }
    }
  }

  /** A file that has the bytes of a write is the file after the write. */
  lemma {:induction false} WriteIs(f: Bytes, off: nat, data: Bytes, g: Bytes)
    requires data != [] && |g| == if |f| < off + |data| then off + |data| else |f|
    requires forall k :: 0 <= k < |g| ==>
      g[k] == if off <= k < off + |data| then data[k - off] else if k < |f| then f[k] else 0
    ensures g == WriteAt(f, off, data)
  {
    WriteAtLength(f, off, data);
    forall k | 0 <= k < |g|
      ensures WriteAt(f, off, data)[k] == g[k]
    {
      WriteAtByte(f, off, data, k);
    }
  }

  lemma {:induction false} WriteAtLength(f: Bytes, off: nat, data: Bytes)
    requires data != []
    ensures |WriteAt(f, off, data)| == if off + |data| <= |f| then |f| else off + |data|
  {
  }

  /** A length rounded down to a boundary. */
  function Aligned(size: nat, bdy: nat): (r: nat)
    requires bdy > 0
    ensures r % bdy == 0 && r <= size < r + bdy
  {
    AlignedDivides(size, bdy);
    size - size % bdy
  }

  lemma {:induction false} AlignedDivides(size: nat, bdy: nat)
    requires bdy > 0
    ensures (size - size % bdy) % bdy == 0
  {
    var q := size / bdy;
    assert size - size % bdy == q * bdy;
    MultipleDivides(q, bdy);
  }

  lemma {:induction false} MultipleDivides(q: nat, bdy: nat)
    requires bdy > 0
    ensures (q * bdy) % bdy == 0
  {
    var n := q * bdy;
    var p, r := n / bdy, n % bdy;
    assert n == p * bdy + r;
    Apart(q, p, bdy);
  }

  /** Two multiples less than `bdy` apart are the same. */
  lemma {:induction false} Apart(q: nat, p: nat, bdy: nat)
    requires 0 <= q * bdy - p * bdy < bdy
    ensures q == p
  {
    assert p < q ==> (p + 1) * bdy <= q * bdy;
    assert q < p ==> (q + 1) * bdy <= p * bdy;
  }

  lemma {:induction false} AlignedBelow(size: nat, bound: nat, bdy: nat)
    requires bdy > 0 && size <= bound
    ensures Aligned(size, bdy) <= Aligned(bound, bdy) <= bound
  {
    var p, q := size / bdy, bound / bdy;
    assert size == p * bdy + size % bdy && bound == q * bdy + bound % bdy;
    if p <= q {
      assert p * bdy <= q * bdy;
    } else {
      assert (q + 1) * bdy <= p * bdy;
    }
  }

  /** The length that `-s 1` truncates to, for a result `d` of `random`. */
  function SmallTruncation(d: nat, maxoplen: nat, bdy: nat): nat
    requires bdy > 0
  {
    Aligned(d % (maxoplen + 1), bdy)
  }

  /** The truncations of `-s 1` stay inside the buffers for every draw exactly when the
      largest operation, rounded down, does. */
  lemma {:induction false} SmallTruncationsFitIff(maxoplen: nat, maxfilelen: nat, bdy: nat)
    requires bdy > 0
    ensures (forall d: nat :: SmallTruncation(d, maxoplen, bdy) <= maxfilelen) <==> Aligned(maxoplen, bdy) <= maxfilelen
  {
    hide Aligned;
    if Aligned(maxoplen, bdy) <= maxfilelen {
      forall d: nat
        ensures SmallTruncation(d, maxoplen, bdy) <= maxfilelen
      {
        AlignedBelow(d % (maxoplen + 1), maxoplen, bdy);
      }
    } else {
      SmallModulus(maxoplen);
      assert SmallTruncation(maxoplen, maxoplen, bdy) == Aligned(maxoplen, bdy);
    }
  }

  lemma {:induction false} SmallModulus(n: nat)
    ensures n % (n + 1) == n
  {
  }

  /** Extending a file and storing into it is writing to it. */
  lemma {:induction false} MapWriteLaw(f: Bytes, off: nat, data: Bytes, g: Bytes)
    requires data != [] && off + |data| <= |g|
    requires g == if |f| < off + |data| then Resize(f, off + |data|) else f
    ensures g[..off] + data + g[off + |data|..] == WriteAt(f, off, data)
  {
    assert g[..off] == Resize(f, off);
  }
}
