# Verification of the AFS-style file system and its test tools

This project models, in Dafny 4.11, a small distributed file system that caches whole files (after AFS), and the tools that live beside it, and proves what they promise.

**Sessions** (`Session*.dfy`). Any number of clients and one server, as a state machine whose steps are single system calls or single messages (a write through a handle joins its `pwrite` with the setting of the dirty bit; creating, deleting and renaming are one step each). Opening a file streams it into a local copy named by its inode; reads and writes touch the copy only; a flush streams a dirty copy to a temp file that one `rename` puts in place. Both sides may crash at any step. `SessionInvariant` proves one invariant of every step; `SessionRefinement` proves that each step is a step of a small specification in which opens take snapshots, writes are private and a flush publishes a whole copy at once (`SessionSpec`); `SessionHistory` says what the list of acts alone implies; `SessionTheorems` states the results for whole runs. `SessionFlush` says what a flush that returns has done, and when exactly it can lose or tear its copy; `SessionReturn` shows that calls do return, whether the server lives or not, and what an idle client may begin. `Enabled` is what the code waits for; `Assumed` is what it relies on without checking. For three of these (overlapping uploads, a second open of an open path, a write during a flush), `SessionTheorems` and `SessionMisuse` say exactly when their failure does harm.

**The same operations in the code's own form** (`Server.dfy`, `Client.dfy`, `DiskCache.dfy`). Classes with mutable fields whose methods have the loops of the source: the download and upload loops, the temp file and its rename, the write-through cache and its loader. `Chunks.dfy` holds one turn of each transfer loop; the loops and the state machine are both tied to it (`Server.WholeTransfers`).

**The cache file** (`CacheFile.dfy`, `CacheLaws.dfy`, `CacheTheorems.dfy`). Printing and parsing of the metadata lines, and what a restart finds: because the list of fields is not cleared between lines, exactly one entry comes back. The loader with that one line repaired returns every entry. `CacheLaws` says what the format is, in characters and fields, without the functions that print and parse it.

**Semaphores** (`Locks.dfy`). The return paths of every callback, with what is done under which semaphore, and any number of threads that run them.

**The INI parser** (`Ini.dfy`, `IniBuffer.dfy`, `IniTheorems.dfy`, `IniLaws.dfy`). `Ini` says what an input means, as a fold over lines; `IniBuffer` is the parser as written, moving NULs about in three fixed buffers, and is proved to compute that meaning without leaving them; `IniTheorems` proves laws of the meaning, up to the round trip; `IniLaws` says what each form of line does, from its characters, with any blanks around its parts.

**Error injection** (`ErrInj.dfy`, `ErrInjLaws.dfy`). The configuration queue as a map, and the code that an operation gets back; `ErrInjLaws` follows a configuration from its text to that code.

**The exerciser** (`Fsx.dfy`). The shadow buffer of the file system exerciser follows a POSIX file through every operation, so a correct file is never reported as broken, and a read that gets anything else than the good data always is; what each round does, logs and reports is stated from the options and the random draws alone (`Fsx.Exerciser.Does`).

`Posix.dfy` states the file operations used throughout, following IEEE Std 1003.1, System Interfaces volume: an inode outlives its name, `rename` is atomic, holes read as zeros. `Text.dfy` states the blanks and number conversions of the C library, `TextLaws.dfy` what they come to in characters, and `Options.dfy` is an option type. In `Session.State`, `copy` is a history variable that no step reads; `life` and `epoch` count the restarts of a client and of the server, and stand for the fact that a call dies with either of its two processes.

`dafny verify dfyconfig.toml` checks everything.

## Where the code differs from what it is meant to do

Each of these is a theorem, with the exact condition where there is one:

- A restarted client keeps one cache entry, the one with the least key (`CacheTheorems.RestartExact`); it keeps all of them if and only if there is at most one (`CacheTheorems.RestartWholeIff`; `CacheTheorems.RepairedRestart` for the repair). A process that dies while saving may leave a file that does not load at all (`CacheTheorems.CutSave`).
- Two overlapping uploads to one path share a temp file, and the first one can then commit a file that was emptied under it (`SessionTheorems.TempOpenHarmlessIff`, `SessionTheorems.OverlapTears`; `SessionMisuse.OverlapLoses` runs into it).
- A flush returns success even when the server died before the rename (`SessionFlush.FlushMayLie`); a copy that success was returned for is missing exactly if the server crashed before its rename (`SessionFlush.FlushOutcome`).
- A client that dies in mid-flush publishes the piece that the server has received, cut at a message boundary: the server takes the broken stream for the end of the file (`SessionFlush.CrashTears`). In mid-flush this is harmless if and only if everything has been received (`SessionFlush.CommitsWholeIff`); a flush as a whole is atomic if and only if its copy fits one message (`SessionFlush.FlushAtomicIff`).
- A second open of an open path leaves the handle with the server's file and no dirty bit; a flush that it owed is lost if and only if the client has written through it since it opened or created the file (`SessionMisuse.ReopenHarmlessIff`, `SessionMisuse.ReopenLosesIff`; `SessionMisuse.ReopenLoses` runs into it).
- A write during a flush makes it send a mixture of old and new bytes if and only if it changes bytes on both sides of the next byte to be sent (`SessionMisuse.WriteDuringFlushIff`).
- A cached path with a colon or a newline can come back from a restart as a path that was never cached: a restart from a printed cache that loads is sound if and only if the least path has neither (`CacheTheorems.RestartReloadableIff`; `CacheTheorems.ColonLoads` for the path `a:1`).
- The dirty bit is never cleared by a flush, so a handle that was written once uploads at each later close (`SessionTheorems.FlushContactsIff`).
- An empty dirty copy sends no message, so the server keeps its old contents, and the flush returns success (`Client.AfsClient.CloseFile`, `SessionFlush.FlushOutcome`).
- A download of 2^31 bytes or more is cut short exactly when the length is a multiple of 1024 (`Server.DeliveredWholeIff`).
- The reply to a creation carries an existing file as a C string, so never the whole of one that is not empty (`Server.CreatedWholeIff`).
- A local file is created under a signed 32-bit inode number and looked up under an unsigned one (`Client.LocalNamesAgreeIff`), and inodes 2^32 apart share one (`Client.LocalNumbersEqualIff`).
- `read` through descriptor -1 posts a semaphore that it never waited for (`Locks.PathDisciplinedIff`, `Locks.StrayPostBreaks`).
- Entries of the cache are found, read and edited without the cache's semaphore, so the write of one callback can be at its entry while another callback changes the map (`Locks.EntryRaces`).
- The exerciser's `-s 1` can truncate beyond its own buffers when `-o` is larger than `-l` (`Fsx.SmallTruncationsFitIff`).

## Model

| member | source | states |
|---|---|---|
| SessionTheorems.RunRefines | wiscAFS/wiscAFS_server.cc:320-400 | every interleaving of any number of clients, with crashes anywhere, is a play of the specification: snapshots at open, private writes, whole-copy publication |
| SessionRefinement.RefinesStep | wiscAFS/wiscAFS_client.cc:35-236 | each single step (a message, a write, a rename, a crash) is allowed by the specification and leads to a state that the specification's next state describes |
| SessionInvariant.InvStep | wiscAFS/wiscAFS_client.cc:35-236 | every step keeps: names claim distinct, existing inodes; each transfer has delivered a beginning of its file; each temp file belongs to one upload |
| SessionInvariant.InvRun | wiscAFS/wiscAFS_server.cc:143-400 | the invariant holds after every run |
| SessionTheorems.LastCloseWins | wiscAFS/wiscAFS_server.cc:320-400 | close-to-open: after any run each server file is what the last publish, create, delete or rename in the history made it, and each handle reads its snapshot plus its own writes |
| SessionHistory.HistoryExplains | wiscAFS/wiscAFS_client.cc:129-236 | the specification's state after any play is a function of the history alone: last close wins, opens are snapshots, handles are private |
| SessionTheorems.CrashAtomicity | wiscAFS/wiscAFS_server.cc:327-389 | whoever crashes whenever, a server file is an original, an empty new one, or what one publishing act took of one flushed copy: all of it, or a beginning cut at a message boundary if that client crashed between the start of the flush and that act, with no server crash in between |
| SessionHistory.Provenance | wiscAFS/wiscAFS_server.cc:378-389 | the same for the specification, by tracing each file's bytes to the act that published them and from there to the act that began the flush |
| SessionHistory.NoPublishAfterCrash | wiscAFS/wiscAFS_server.cc:339-341 | a flush that was under way when the server crashed is never published later: a leftover temp file leaks into no commit |
| SessionTheorems.NoTornRead | wiscAFS/wiscAFS_server.cc:143-242 | a download interleaved with anything else delivers exactly the version bound to the path when it was opened; if the server crashes, a chunk-aligned beginning of that version |
| SessionTheorems.DownloadKept | wiscAFS/wiscAFS_server.cc:187-235 | the inode being downloaded keeps its bytes through every run |
| SessionRefinement.TempUnseen | wiscAFS/wiscAFS_server.cc:339-358 | the inode behind a temp name is bound to no user path, cached by no client and downloaded by nobody |
| SessionRefinement.CommitExact | wiscAFS/wiscAFS_server.cc:368-388 | at the rename the temp file holds the whole copy, or, for a dead client, the messages that it sent |
| SessionTheorems.FlushContactsIff | wiscAFS/wiscAFS_client.cc:149-177 | an idle client starts an upload for a handle if and only if it has written through it since the open or creation |
| SessionHistory.DirtyIffWritten | wiscAFS/wiscAFS_client.cc:288-304 | the dirty bit in the history is set exactly by a write since the last open or creation |
| SessionTheorems.NoAliasing | wiscAFS/wiscAFS_client.cc:66-94 | in every reachable state two cached paths of a client have different inodes, so that (below 2^31) they name different local files |
| SessionTheorems.FlushCanFinish | wiscAFS/wiscAFS_client.cc:179-223 | from any reachable state an upload that nobody overlaps can run to its commit, after which the server holds the whole copy |
| SessionTheorems.OpenCanFinish | wiscAFS/wiscAFS_client.cc:59-106 | from any reachable state a download from a living server can run to its end, after which the handle shows the whole file |
| SessionTheorems.TempOpenHarmlessIff | wiscAFS/wiscAFS_server.cc:339-341 | opening the shared temp name leaves every upload's temp file its own if and only if no other upload to the path is live |
| SessionTheorems.OverlapTears | wiscAFS/wiscAFS_server.cc:339-389 | an overlapping upload makes the earlier one commit an empty file in place of what it received |
| SessionFlush.FlushOutcome | wiscAFS/wiscAFS_client.cc:160-235 | a flush that returned: with no server crash the status is 1 and it committed exactly if the copy was not empty; -1 means a server crash and no commit; a non-empty copy is uncommitted exactly if the server crashed before the commit; a commit leaves the whole copy at the path |
| SessionFlush.StatusMeans | wiscAFS/wiscAFS_client.cc:212-234 | the status at the end: -1 only when the server is gone and nothing was committed; while the server lives, 1 and committed or empty; that such an end is reached is `SessionReturn.FlushReturns` |
| SessionFlush.FlushMayLie | wiscAFS/wiscAFS_client.cc:222-234 | from every state in which a flush is unsettled, the client can finish sending, the server die before its rename, and the flush return 1, with the server's disk as it was |
| SessionFlush.CrashTears | wiscAFS/wiscAFS_server.cc:327-388 | a client crash in mid-flush can be followed by a commit of exactly what has been written |
| SessionFlush.ReceivedIsWhole | wiscAFS/wiscAFS_server.cc:327-388 | once the server has written all of an upload, its next commit publishes the whole copy, whoever crashes |
| SessionFlush.FinishedIsWhole | wiscAFS/wiscAFS_client.cc:222-223 | once the client has sent everything and called `WritesDone`, a commit at which no message is under way publishes the whole copy, even if the client has crashed |
| SessionFlush.CommitsWholeIff | wiscAFS/wiscAFS_server.cc:327-388 | in mid-flush, every possible next commit publishes the whole copy if and only if the server has written all of it |
| SessionFlush.FlushAtomicIff | wiscAFS/wiscAFS_client.cc:179-223 | when a flush begins with no other upload to the path alive, every possible next commit of it publishes the whole copy if and only if the copy is at most 1024 bytes |
| SessionReturn.FlushReturns | wiscAFS/wiscAFS_client.cc:179-235 | from every reachable state in which a client begins a flush and no other upload to the path is live, a run without a crash ends with the flush returning 1; the call is gone and the client idle, and a non-empty copy is what the path then holds |
| SessionReturn.FlushCanReturn | wiscAFS/wiscAFS_server.cc:368-400 | the same from every later point of a flush between two living processes: sending, writing, renamed or answered |
| SessionReturn.OrphanReturns | wiscAFS/wiscAFS_client.cc:106-235 | a client whose server died is not stuck: an open ends at once; a flush ends after at most one more step, with -1 if there are bytes left to send and else with 1; the disk is as it was |
| SessionReturn.IdleMay | unreliablefs/unreliablefs/wiscAFS_ops.cc:122-403 | an idle client may open exactly what exists and it has not open, flush what it has written, create what neither server nor cache knows, delete what it has not open, and rename that if nobody else knows it |
| SessionReturn.HandleMay | unreliablefs/unreliablefs/wiscAFS_ops.cc:157-275 | it may write through and release exactly the handles that the application has |
| SessionMisuse.ReopenHarmlessIff | wiscAFS/wiscAFS_client.cc:59-106 | a complete second open, in any order of its messages, leaves the handle with the whole server file and no dirty bit; a flush that was owed is still owed if and only if the handle was not dirty |
| SessionMisuse.ReopenLosesIff | wiscAFS/wiscAFS_client.cc:88-92 | in every reachable state, the second open loses an owed flush if and only if the client has written through the handle since it opened or created the file |
| SessionMisuse.ReopenLoses | wiscAFS/wiscAFS_client.cc:66-92 | a run from an initial state in which a client writes one byte, opens again and is left with an empty, clean file |
| SessionMisuse.ReopenCanFinish | wiscAFS/wiscAFS_client.cc:59-106 | the second open can always run to its end |
| SessionMisuse.WriteDuringFlushIff | unreliablefs/unreliablefs/wiscAFS_ops.cc:254-260 | after a write in mid-flush the messages join to old bytes up to the next byte to be sent and new ones from there; that is the old copy if and only if the write leaves the part from there alone, and neither the old nor the new file if and only if it changes bytes on both sides |
| SessionMisuse.OverlapHappens | wiscAFS/wiscAFS_server.cc:327-358 | a run of two clients from an initial state, with every assumption met, ends where one upload can be committed and the other can open the same temp file |
| SessionMisuse.OverlapLoses | wiscAFS/wiscAFS_server.cc:339-389 | going on from there leaves an empty file |
| SessionTheorems.StartShown | wiscAFS/wiscAFS_client.hh:33-37 | the initial states are described by the specification's initial states, so the run theorems apply to them |
| Chunks.DownloadTurnOk | wiscAFS/wiscAFS_server.cc:187-235 | one turn of the download loop keeps the transfer a beginning of the file cut at message boundaries, and breaks only at its end |
| Chunks.UploadTurnOk | wiscAFS/wiscAFS_client.cc:179-220 | the same for the upload loop, which reads nothing only at the end |
| Chunks.InTransitOffset | wiscAFS/wiscAFS_server.cc:187-235 | what has arrived and what is under way together make the beginning that has been read |
| Server.AfsServer.SendAll | wiscAFS/wiscAFS_server.cc:176-235 | the loop ends, with messages of at most 1024 bytes; below 2^31 bytes they are n / 1024 + 1 pieces (the last empty when 1024 divides n) that join to the file and are those of the session machine; above, they join to what the wrapped length lets through |
| Server.AfsServer.OpenFile | wiscAFS/wiscAFS_server.cc:143-242 | the stream of an existing file, and no message at all for a file that cannot be opened |
| Server.DeliveredWholeIff | wiscAFS/wiscAFS_server.cc:176-229 | where the length wraps to no negative int, the whole file is delivered if and only if it is below 2^31 bytes or no multiple of 1024 |
| Server.PiecesConcat | wiscAFS/wiscAFS_server.cc:196-233 | the first k pieces of a file join to its first 1024 k bytes, and enough of them to the file |
| Server.PieceLaw | wiscAFS/wiscAFS_server.cc:196-233 | piece k is the 1024 bytes from 1024 k on, or what there is of them |
| Posix.ReadAtByte | wiscAFS/wiscAFS_server.cc:196-233 | a read gets the bytes that are there, up to the number asked for |
| Posix.ResizeByte | unreliablefs/unreliablefs/tests/fsx.c:728-758 | after a truncation the file has the length, the old bytes, and zeros beyond them |
| Server.WholeTransfers | wiscAFS/wiscAFS_client.cc:179-220 | iterating the turns of the session machine sends exactly the same pieces as the two loops |
| Server.AfsServer.CloseFile | wiscAFS/wiscAFS_server.cc:320-400 | without a message nothing changes and the status is -1; otherwise the joined messages are published |
| Server.AfsServer.WriteAll | wiscAFS/wiscAFS_server.cc:327-366 | the reading loop puts the joined messages into the temp file and touches no other inode |
| Server.PublishOk | wiscAFS/wiscAFS_server.cc:378-388 | the rename gives the path a new inode with exactly the written bytes, removes the temp name, and leaves every other name and every older inode as they were |
| Server.AfsServer.CreateFile | wiscAFS/wiscAFS_server.cc:417-477 | an absent path is bound to an empty file on a new inode, an existing one stays; the reply carries the contents up to the first NUL |
| Server.CreatedWholeIff | wiscAFS/wiscAFS_server.cc:446-456 | the reply carries the whole file if and only if the file is empty |
| Server.AfsServer.DeleteFile | wiscAFS/wiscAFS_server.cc:515-531 | the name goes and the bytes stay; -1 exactly for an absent name |
| Server.AfsServer.RenameFile | wiscAFS/wiscAFS_server.cc:402-414 | the inode moves to the new name; -1 and no change exactly for an absent name |
| Client.AfsClient.OpenFile | wiscAFS/wiscAFS_client.cc:35-127 | the local file ends up with what the server delivers behind a clean entry, whatever was there; without a message nothing changes |
| Client.AfsClient.Upload | wiscAFS/wiscAFS_client.cc:171-220 | the loop ends after ceil(n / 1024) messages, none empty, that join to the copy and are those of the session machine, unless the stream fails first |
| Client.AfsClient.CloseFile | wiscAFS/wiscAFS_client.cc:129-236 | the server changes only for a dirty, non-empty, findable copy while it is up, and then holds the copy whole; -1 for an unknown path, a missing local file or a stream that fails before the last message, else 1; the entry and its dirty bit stay |
| Client.AfsClient.Write | unreliablefs/unreliablefs/wiscAFS_ops.cc:220-275 | only the local file changes, and the entry becomes dirty if it was not |
| Client.AfsClient.WriteFile | wiscAFS/wiscAFS_client.cc:288-305 | the dirty bit is set and saved once |
| Client.AfsClient.CreateFile | wiscAFS/wiscAFS_client.cc:307-377 | the server's file exists, the local file holds what the reply carries, and an entry is added unless the path had one |
| Client.AfsClient.DeleteFile | wiscAFS/wiscAFS_client.cc:379-411 | the server's name goes and its bytes stay; the cache has no entry for the path, every other entry is as it was, and the cache file is the lines of that map if there was an entry; the local file stays |
| Client.AfsClient.RenameFile | wiscAFS/wiscAFS_client.cc:238-274 | whether or not the server's rename succeeds: a present entry leaves the old key and is under the new one, unless the new key was taken, which keeps its entry; all other entries are as they were |
| Client.AfsClient.GetAttr | wiscAFS/wiscAFS_client.cc:587-626 | a cached path is answered from the local file, any other from the server |
| Client.DeletedIsGone | wiscAFS/wiscAFS_client.cc:379-411 | after a deletion, asking for attributes finds nothing, and closing a handle that is still open returns -1 and leaves the server as the deletion did |
| Client.LocalNamesAgreeIff | wiscAFS/wiscAFS_client.cc:67-161 | the name under which the local file is created is the one under which it is looked up if and only if the inode's low 32 bits are below 2^31 |
| Client.LocalNumbersEqualIff | wiscAFS/wiscAFS_client.cc:67 | two inodes name one local file if and only if they differ by a multiple of 2^32 |
| Client.CloseThenOpen | wiscAFS/wiscAFS_client.cc:129-236 | after one client writes and closes, another that opens gets in its local file what the server delivers of the first one's copy |
| CacheFile.SplitEntry | wiscAFS/cache/ClientCache.h:128-138 | splitting a printed line whose key has no colon yields exactly its sixteen fields |
| CacheLaws.EntryLaw | wiscAFS/cache/ClientCache.h:177 | a printed line is the path, the dirty flag as 0 or 1, the descriptor, and the thirteen attributes in this order, in decimal, each with a colon behind it |
| CacheLaws.PrintLaw | wiscAFS/cache/ClientCache.h:174-178 | the cache file has one line for each entry, in ascending order of the paths |
| CacheLaws.LeqLaw | wiscAFS/cache/ClientCache.h:107 | the order of the map is that a path comes before another if it is a beginning of it or has the smaller character at the first difference |
| CacheLaws.SplitLaw | wiscAFS/cache/ClientCache.h:128-138 | fields that a colon ends are recovered, whatever follows the last colon is dropped |
| CacheLaws.LinesLaw | wiscAFS/cache/ClientCache.h:128 | a newline ends a line, and a last line without one counts if it is not empty |
| CacheLaws.FieldsLaw | wiscAFS/cache/ClientCache.h:140-158 | a line becomes an entry, and a clean one, if and only if it has sixteen fields and the last fifteen are read as ints |
| CacheLaws.StoiLaw | wiscAFS/cache/ClientCache.h:141-155 | blanks, a sign and decimal digits are read as their number if that is an int, whatever follows |
| CacheLaws.StoiNone | wiscAFS/cache/ClientCache.h:141-155 | without a digit after blanks and sign there is no number |
| CacheLaws.ConversionLaw | wiscAFS/cache/ClientCache.h:13-101 | a conversion changes a number by a multiple of the type's size, and only one that does not fit |
| TextLaws.DecLaw | wiscAFS/cache/ClientCache.h:177 | decimal notation, digit by digit |
| CacheFile.ParseEntry | wiscAFS/cache/ClientCache.h:140-157 | parsing a printed line, whatever fields follow, gives the entry back clean, or fails exactly when some number does not fit an int |
| CacheFile.BuildNumbers | wiscAFS/cache/ClientCache.h:93-101 | the conversions and the constructor rebuild an entry whose numbers fit, without its dirty bit |
| Text.StoiDecInt | wiscAFS/cache/ClientCache.h:141-155 | stoi reads back a printed number if and only if it is a 32-bit int |
| CacheTheorems.RestartExact | wiscAFS/cache/ClientCache.h:122-163 | loading a printed cache yields exactly the least key's entry, clean, if and only if its key has no colon or newline and its numbers fit |
| CacheTheorems.RestartWholeIff | wiscAFS/cache/ClientCache.h:122-163 | loading a printed cache yields every entry, clean, if and only if there is at most one and it survives the format |
| CacheTheorems.CutSave | wiscAFS/cache/ClientCache.h:165-186 | a printed cache cut at any point: empty loads as empty, cut inside the first line fails, anything longer loads like the whole |
| CacheTheorems.CutReloadable | wiscAFS/cache/ClientCache.h:165-186 | so what is loaded after a death in mid-save is a clean part of the cache |
| CacheTheorems.LoadedPlain | wiscAFS/cache/ClientCache.h:128-138 | no file whatever makes the loader produce a key with a colon or a newline |
| CacheTheorems.LoadedClean | wiscAFS/cache/ClientCache.h:93-101 | every loaded entry is clean |
| CacheTheorems.RestartReloadable | wiscAFS/cache/ClientCache.h:122-163 | for a least path without colon or newline, what is loaded from a printed cache is a clean part of it, as the session machine's client crash allows |
| CacheTheorems.RestartReloadableIff | wiscAFS/cache/ClientCache.h:128-158 | a load of a printed, non-empty cache that succeeds gives a clean part of it if and only if the least path has no colon or newline; otherwise it gives only a path that was not cached |
| CacheTheorems.ColonLoads | wiscAFS/cache/ClientCache.h:128-158 | the printed entry of `a:1` loads, without failing, as path `a` with its numbers moved by one place |
| CacheTheorems.OnlyFirstKey | wiscAFS/cache/ClientCache.h:127-158 | from any file that loads, the only key is the first field of the first line |
| CacheTheorems.RepairedRestart | wiscAFS/cache/ClientCache.h:127-158 | with the fields cleared for each line, a restart finds every entry, clean, if and only if all keys and numbers survive the format |
| DiskCache.RunSaves | wiscAFS/cache/ClientCache.h:197-234 | any run of operations changes nothing at all or leaves exactly the map's lines in the file |
| DiskCache.NextLife | wiscAFS/cache/ClientCache.h:122-234 | over one client's life from load to death, between two operations or in the middle of a save, the next load fails or finds a clean part of the cache |
| DiskCache.DiskCache.LoadCache | wiscAFS/cache/ClientCache.h:122-163 | the nested loops compute the fold over lines with the carried fields, including how they fail |
| DiskCache.DiskCache.SaveCache | wiscAFS/cache/ClientCache.h:165-186 | the file becomes the map's lines in key order, and the map stays |
| DiskCache.DiskCache.AppendFields | wiscAFS/cache/ClientCache.h:129-138 | the find and substr loop appends the colon-terminated pieces of the line |
| DiskCache.DiskCache.ReadEntry | wiscAFS/cache/ClientCache.h:140-157 | the conversions in turn, failing at the first field that is missing or no number |
| DiskCache.DiskCache.AddCacheValue | wiscAFS/cache/ClientCache.h:197-202 | an absent key gets the value, a present one keeps its own, all others stay, and the map is saved always |
| DiskCache.DiskCache.UpdateCacheValue | wiscAFS/cache/ClientCache.h:204-212 | a present key gets the value and the map is saved; an absent one changes neither map nor file; all others stay |
| DiskCache.DiskCache.DeleteCacheValue | wiscAFS/cache/ClientCache.h:214-222 | the key is gone, all other entries stay, and the file is the lines of that map if the key was there, else as it was |
| DiskCache.DiskCache.RenameCacheValue | wiscAFS/cache/ClientCache.h:224-234 | three cases: an absent key changes nothing; a free new key gets the entry; a taken new key keeps its own entry and the moved one is dropped; all other entries stay and the map is saved if the key was there |
| DiskCache.DiskCache.GetCacheValue | wiscAFS/cache/ClientCache.h:189-195 | the entry of the key, if any |
| Locks.PathDisciplinedIff | unreliablefs/unreliablefs/wiscAFS_ops.cc:18-427 | a callback's return path takes the semaphores in order, changes the cache only under its semaphore and reaches the server's files only under `clientSem`, and releases them all, if and only if it is not a read of descriptor -1 |
| Locks.RunInv | unreliablefs/unreliablefs/wiscAFS_ops.cc:94-155 | in every reachable state of any threads, each semaphore's value and its number of holders make one |
| Locks.Exclusive | wiscAFS/cache/ClientCache.h:197-234 | two threads never hold the same semaphore |
| Locks.JobsApart | wiscAFS/cache/ClientCache.h:197-234 | in every reachable state at most one thread changes and saves the cache and at most one reaches the server's files, and each holds the semaphore for it |
| Locks.EntryRaces | wiscAFS/wiscAFS_client.cc:288-297 | a run ends with one callback about to insert an entry and the write of another about to find and edit its own |
| Locks.Progress | unreliablefs/unreliablefs/wiscAFS_ops.cc:94-155 | while some thread is unfinished, some thread can step |
| Locks.StuckIsFinished | wiscAFS/wiscAFS_client.cc:37-125 | a state in which nobody can step has every thread finished and every semaphore free |
| Locks.RunsEnd | unreliablefs/unreliablefs/wiscAFS_ops.cc:94-155 | every step uses up one action, so every run ends |
| Locks.StrayPostBreaks | unreliablefs/unreliablefs/wiscAFS_ops.cc:199-203 | after the unmatched post, two callbacks are inside the outer semaphore at once |
| IniBuffer.ParseString | unreliablefs/unreliablefs/conf.c:97-241 | for every input the in-place parser makes the handler calls and returns the code of the fold over lines, inside its three buffers |
| IniBuffer.ParseLine | unreliablefs/unreliablefs/conf.c:157-228 | one turn of the loop, from the buffer's C string to the new state, all buffers still terminated |
| IniBuffer.ParsePair | unreliablefs/unreliablefs/conf.c:197-227 | a pair line: the delimiter, inline comment and blanks are cut in place, the previous name is kept, the handler called |
| IniBuffer.ParseSection | unreliablefs/unreliablefs/conf.c:180-196 | a section line: the name cut at 49 characters, or the error of a missing bracket |
| IniBuffer.FindCharsOrComment | unreliablefs/unreliablefs/conf.c:67-82 | the pointer stops at the first of the characters, at a comment after a blank, or at the NUL |
| IniBuffer.RStrip | unreliablefs/unreliablefs/conf.c:48-54 | the C string loses exactly its trailing blanks, in place |
| IniBuffer.LSkip | unreliablefs/unreliablefs/conf.c:57-62 | the pointer moves to the C string without its leading blanks |
| IniBuffer.StrNCpy0 | unreliablefs/unreliablefs/conf.c:86-94 | the destination holds the first size - 1 characters, terminated |
| IniBuffer.ReadPiece | unreliablefs/unreliablefs/conf.c:265-288 | the buffer holds the next piece of the input, terminated, and the position moves past it |
| IniLaws.PaddedPair | unreliablefs/unreliablefs/conf.c:197-216 | a name and a value with any of the six blanks around both, and `=` or `:` between them, make exactly that call |
| IniLaws.CommentedPair | unreliablefs/unreliablefs/conf.c:205-210 | a blank and a semicolon end the value, and the rest of the line is not seen |
| IniLaws.SilentLine | unreliablefs/unreliablefs/conf.c:167-171 | blank lines, and lines whose first character that is no blank is `;` or `#`, do nothing |
| IniLaws.Continuation | unreliablefs/unreliablefs/conf.c:173-178 | an indented line after a pair is a further value of the same name, taken as it is but for the blanks around it |
| IniLaws.SectionNamed | unreliablefs/unreliablefs/conf.c:180-186 | the section's name is what stands before the first `]`, at most 49 characters of it; the previous name is forgotten |
| IniLaws.BracketMissing | unreliablefs/unreliablefs/conf.c:180-196 | a section line without `]` is an error and changes nothing else |
| IniLaws.DelimiterMissing | unreliablefs/unreliablefs/conf.c:197-227 | any other line without a delimiter is an error and changes nothing else |
| IniLaws.ByteOrderMark | unreliablefs/unreliablefs/conf.c:160-166 | a byte-order mark at the beginning is skipped |
| IniLaws.NextPiece | unreliablefs/unreliablefs/conf.c:265-288 | a line is read up to its newline or its 199th character, whichever comes first |
| TextLaws.TrimLaw | unreliablefs/unreliablefs/conf.c:47-62 | trimming takes away exactly the blanks, a set of six characters, at both ends |
| IniTheorems.PiecesPartition | unreliablefs/unreliablefs/conf.c:265-288 | the pieces join to the input, are at most 199 characters, end at their first newline, and only the last may fall short without one |
| IniTheorems.FoldLinesConcat | unreliablefs/unreliablefs/conf.c:136-234 | parsing is compositional: a text that ends a line, then the rest from its final state and line number, is the whole |
| IniTheorems.FirstErrorReported | unreliablefs/unreliablefs/conf.c:175-234 | the result is the least bad line number, or 0 if no line is bad |
| IniTheorems.LinesReport | unreliablefs/unreliablefs/conf.c:157-234 | an earlier error changes nothing that a later line does but the reported number |
| IniTheorems.PrintParse | unreliablefs/unreliablefs/conf.c:135-240 | printing any well-formed sections and pairs and parsing them makes exactly those handler calls, in order, and returns 0 if the handler accepts them |
| ErrInj.QueueIsMap | unreliablefs/unreliablefs/unreliablefs_errinj.c:289-338 | after any events the queue has one node per known type mentioned, in order of first mention, each option holding its last value |
| ErrInj.Queue.OptionHandler | unreliablefs/unreliablefs/unreliablefs_errinj.c:289-338 | one event finds or appends its node and sets its option; an unknown key still appends |
| ErrInj.TypeByName | unreliablefs/unreliablefs/unreliablefs_errinj.c:242-252 | the index of the name in the table, or -1 |
| ErrInj.ConfigInit | unreliablefs/unreliablefs/unreliablefs_errinj.c:254-270 | no queue exactly for an unreadable file; else the queue of the parsed events |
| ErrInj.Feed | unreliablefs/unreliablefs/unreliablefs_errinj.c:262-267 | the handler's calls one after the other build the queue of the events |
| ErrInj.Config.constructor | unreliablefs/unreliablefs/unreliablefs.c:167 | the configuration starts with the queue of its file |
| ErrInj.ConfigRoundTrip | unreliablefs/unreliablefs/unreliablefs_errinj.c:254-338 | a printed configuration, parsed and fed to the handler, becomes the map that it describes |
| ErrInj.LastDecides | unreliablefs/unreliablefs/unreliablefs_errinj.c:165-240 | the last node of kind errno or noop whose draw is within its probability and whose expressions match decides: minus the error number drawn for it, or 999 |
| ErrInj.NothingDecides | unreliablefs/unreliablefs/unreliablefs_errinj.c:165-240 | without such a node the operation goes on |
| ErrInjLaws.PlainSection | unreliablefs/unreliablefs/unreliablefs_errinj.c:165-338 | from the text: a section with nothing but a probability p acts exactly on the draws with draw % 101 <= p, with minus the error number, 999, or nothing for the other two kinds |
| ErrInjLaws.FullSection | unreliablefs/unreliablefs/unreliablefs_errinj.c:165-338 | from the text: with both expressions it acts on exactly the paths and operations that match both |
| ErrInjLaws.NoopAlways | unreliablefs/unreliablefs/unreliablefs_errinj.c:165-338 | from the text: a noop section of probability 100 stops every operation with 999 |
| ErrInjLaws.Configured | unreliablefs/unreliablefs/unreliablefs_errinj.c:165-338 | the same through the objects: constructing the configuration from its file and injecting into an operation off its path |
| TextLaws.AtoiLaw | unreliablefs/unreliablefs/unreliablefs_errinj.c:328-331 | blanks, a sign and decimal digits are read as their number, whatever follows |
| ErrInj.Config.ErrorInject | unreliablefs/unreliablefs/unreliablefs_errinj.c:165-240 | for all draws, what the queue makes of the operation (`ErrInj.LastDecides` says what that is), 0 without a queue; on the configuration file, a reload |
| Fsx.Exerciser.Test | unreliablefs/unreliablefs/tests/fsx.c:837-910 | one round on any file long enough to be mapped, from the options and the draws alone (`Does`): the remainder of the first draw selects the operation, the others its place and size, rounded down to the boundaries and cut to fit; the good data changes in exactly those bytes and the log gets that operation; it fails with 110 exactly if it reads bytes that are not the good data, with 120 exactly if it checks sizes and they differ, and never on a file that is the good data |
| Fsx.Exerciser.RunTests | unreliablefs/unreliablefs/tests/fsx.c:1218-1219 | no run of rounds raises a false alarm, and the good data and the log are what the operations drawn, in order, make of them |
| Fsx.Exerciser.RoundDoes | unreliablefs/unreliablefs/tests/fsx.c:837-910 | the operation that the specification selects is the one that the draws and options say, byte by byte |
| Fsx.Exerciser.ReplayDoes | unreliablefs/unreliablefs/tests/fsx.c:1218-1219 | so each round of a run does, to the good data and the log before it, what its draws say |
| Fsx.Exerciser.DrawnIff | unreliablefs/unreliablefs/tests/fsx.c:843-861 | reads and writes are drawn with every choice of options, mapped reads, mapped writes and truncations exactly without -R, -W and -L |
| Fsx.Aligned | unreliablefs/unreliablefs/tests/fsx.c:461 | rounding down gives the multiple of the boundary less than one boundary below |
| Fsx.Exerciser.constructor | unreliablefs/unreliablefs/tests/fsx.c:1180-1216 | the start: good data and file are empty, or all zeros of the file's length in lite mode; the options are kept, the log is empty, and shadow and file agree |
| Fsx.Exerciser.Operate | unreliablefs/unreliablefs/tests/fsx.c:873-903 | the branches carry out the operation that the kind and the draws select, cut to fit the buffers |
| Fsx.Exerciser.Generate | unreliablefs/unreliablefs/tests/fsx.c:617-626 | generating data, zeroing the hole and extending is a POSIX write of this round's bytes to the shadow |
| Fsx.Exerciser.GenData | unreliablefs/unreliablefs/tests/fsx.c:589-598 | exactly the bytes of the range are stamped, the odd ones mixed with the original data |
| Fsx.Exerciser.DoWrite | unreliablefs/unreliablefs/tests/fsx.c:601-653 | the aligned range is written to shadow and file alike, and to the shadow alone in simulated rounds, without a failure |
| Fsx.Exerciser.DoMapWrite | unreliablefs/unreliablefs/tests/fsx.c:656-725 | the same through a mapping, the file being extended first |
| Fsx.Exerciser.DoTruncate | unreliablefs/unreliablefs/tests/fsx.c:728-758 | the aligned length: growing exposes zeros in shadow and file, shrinking cuts both |
| Fsx.Exerciser.DoRead | unreliablefs/unreliablefs/tests/fsx.c:455-503 | fails if and only if a real read gets other bytes than the good data, which stays as it is |
| Fsx.Exerciser.DoMapRead | unreliablefs/unreliablefs/tests/fsx.c:533-586 | the same through a mapping |
| Fsx.Exerciser.CheckBuffers | unreliablefs/unreliablefs/tests/fsx.c:375-415 | fails if and only if the compared ranges differ |
| Fsx.Exerciser.CheckSize | unreliablefs/unreliablefs/tests/fsx.c:418-436 | fails if and only if the sizes differ |
| Fsx.Exerciser.WriteFileImage | unreliablefs/unreliablefs/tests/fsx.c:761-784 | after simulated rounds the file begins with the good data, and is exactly that unless a lite file has grown |
| Fsx.MapWriteLaw | unreliablefs/unreliablefs/tests/fsx.c:698-713 | extending a file and storing into its mapping is writing to it |
| Fsx.SmallTruncationsFitIff | unreliablefs/unreliablefs/tests/fsx.c:873-879 | the truncations of -s 1 stay inside the buffers for every draw if and only if the largest operation, rounded down, does |

## Left out

Assumptions of the session machine, each a place where the code would otherwise break what is proved:

- Overlapping uploads: `TempOpen` is assumed to happen only while no other upload to the path is live.
- Several handles: a client has one handle on a path at a time, since a second open truncates the local copy and clears the dirty bit; a handle is not written while it is being flushed.
- Inode numbers: assumed fresh (never reused), without hard links, and below 2^31; `Client.LocalNamesAgreeIff` and `Client.LocalNumbersEqualIff` say what happens beyond.
- Creation: only of a path that neither the server nor the creating client's cache knows, which is what the preceding attribute lookup tells the kernel; a race of two creators is not modelled.
- Deletion and renaming: only of paths on which the client holds no handle; a renamed path is cached by no other client.
- User paths: none ends in `.ttmmpp`, and none has a colon or a newline, since the cache file does not survive those (`CacheTheorems.RestartReloadableIff`).
- CacheTheorems.RestartReloadable: for a least path without colon or newline; the iff is `CacheTheorems.RestartReloadableIff`.
- CacheTheorems.CutSave: for a least path without colon or newline, as any other is misread even from a whole file.
- CacheTheorems.CutReloadable: for a least path without colon or newline, as any other is misread even from a whole file.
- DiskCache.NextLife: for operations on paths without colon or newline, as above.
- Failed opens: the server writes no error to the stream, so the client returns an uninitialised descriptor; the session machine opens existing files only, and `Client.AfsClient.OpenFile` returns no number.
- Opening with `O_TRUNC`, which would truncate the server's file in place.

Other things not modelled:

- gRPC, protobuf and FUSE themselves: messages are values, callbacks are steps, and creating, deleting and renaming are one atomic step each in the session machine.
- Messages under way die with their client in some runs of the session machine, even after `WritesDone`, as the server's stream may break; `SessionFlush.FinishedIsWhole` is for the runs in which they do not.
- A crash or a flush between a `pwrite` and the setting of the dirty bit.
- Power loss: no `fsync` is called; a server restart finds the disk as it was. Short reads and writes, full disks and other failing system calls.
- Closing the uninitialised descriptor of a stream without messages in `Server.AfsServer.CloseFile`.
- Server.AfsServer.SendAll: not for lengths that are negative as an `int`, for which the download loop reads beyond its buffer.
- Server.AfsServer.OpenFile: not for such lengths either.
- Client.AfsClient.OpenFile: not for such lengths either.
- File sizes of 2^31 and more, in the session machine.
- Server.AfsServer.CreateFile: not for an existing, non-empty file without a NUL, whose contents are read beyond their buffer.
- Client.AfsClient.CreateFile: not for such a file either.
- Timestamps, permissions and the copying of attribute fields; `GetXAttr`, `StatFS`, `Fcntl`, `Chmod`, `Chown`, `AccessFile` and the directory operations: thin wrappers over system calls.
- `TruncateFile`, which edits the local copy without setting the dirty bit, and `CloseFile` with `release` set, which no callback uses.
- Messages to the standard output, and the buffers that the transfer loops leak.
- Client.CloseThenOpen: says what the second client reads through its entry only for inodes whose low 32 bits are below 2^31, because otherwise it cannot find its copy under the cached number.
- Client.AfsClient.GetAttr: of the attributes only the size is modelled, since the others are copied field by field.
- Client.AfsClient.CloseFile: a failing read of the local file is not modelled; a server that dies during the upload is a server that is down.
- Locks.Progress: remote calls are assumed to return; a process killed inside a critical section is not modelled.
- IniBuffer.ParseString: the handler is a function of the events so far, and input is a text whose embedded NULs end the C string of their piece, as with `fgets`.
- `atoi` of a number outside `int`, whose behaviour C leaves open, is taken as the number itself before its conversion to `unsigned int`.
- ErrInj.Config.ErrorInject: regular expressions and random draws are arbitrary; the signal, the sleep and the tables of error numbers (`op_random_errno`) are not modelled.
- Memory management of the configuration (`config_delete`) and its mutex.
- Fsx.Exerciser.Test: for a file not shorter than the good data, since an access to a mapping beyond the end would trap; the page-tail check of mappings, `msync`, close-and-reopen and cache invalidation have no effect on the bytes and are left out, as are printing, signals and the command-line parser; the log is a sequence, of which the program keeps the last 1000 entries; `fsx.cpp` duplicates `fsx.c`.
- Fsx.Exerciser.constructor: requires what `CommandLine.Accepted` says, including the condition of `Fsx.SmallTruncationsFitIff` that the command-line parser does not check, and in lite mode a file that is not empty, since an empty one makes the first round divide by zero.
