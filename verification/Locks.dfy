/** The three semaphores of a client process: what each callback of the file system waits
    for and posts on each way out, and any number of threads running callbacks. */
module Locks {
  import opened Options

  /** `wiscOPSem`, `clientSem` and the cache's semaphore, in the order they are taken. */
  type Sem = x: nat | x < 3

  const OP: Sem := 0
  const CLIENT: Sem := 1
  const CACHE: Sem := 2

  /** What is done between the semaphores: local work; a remote call that reads or changes a
      file or its name; a remote call of the operations that the cache does not serve; finding
      an entry of the cache, and reading or editing it in place; changing the map and saving it. */
  datatype Job = Local | Remote | Other | Entry | Save

  datatype Action = Wait(x: Sem) | Post(x: Sem) | Work(job: Job)

  // ----- the code ---------------------------------------------------------------------

  /** Where the client's `OpenFile` returns; a file that is known is updated, a new one added. */
  datatype OpenExit = ServerError | NoLocalFile | WriteFailed(known: bool) | NoMessage | Received(known: bool)

  datatype CloseExit = NotCached | NotDirty | NoCopy | ReadFailed | StreamBroke | Sent

  datatype CreateExit = NotOpened | Added | CallFailed

  datatype RenameExit = Uncached | NotMoved | Moved

  datatype ClientCall =
    | GetAttr(cached: bool)
    | OpenFile(open: OpenExit)
    | CloseFile(close: CloseExit)
    | CreateFile(create: CreateExit)
    | DeleteFile(cached: bool)
    | RenameFile(rename: RenameExit)
    | WriteFile(clean: bool)
    | TruncateFile(known: bool)  // and Chown
    | AccessFile
    | Chmod(known: bool)

  /** What a client call does, up to each of its returns. */
  function ClientPath(c: ClientCall): seq<Action> {
    match c
    case GetAttr(true) => [Wait(CLIENT), Work(Entry), Work(Local), Post(CLIENT)]
    case GetAttr(false) => [Wait(CLIENT), Work(Entry), Work(Remote), Post(CLIENT)]
    case OpenFile(ServerError) => [Wait(CLIENT), Work(Remote), Post(CLIENT)]
    case OpenFile(NoLocalFile) => [Wait(CLIENT), Work(Remote), Work(Local), Post(CLIENT)]
    case OpenFile(WriteFailed(_)) =>
      [Wait(CLIENT), Work(Remote), Work(Local), Work(Entry), Wait(CACHE), Work(Save), Post(CACHE), Work(Local), Post(CLIENT)]
    case OpenFile(NoMessage) => [Wait(CLIENT), Work(Remote), Post(CLIENT)]
    case OpenFile(Received(_)) =>
      [Wait(CLIENT), Work(Remote), Work(Local), Work(Entry), Wait(CACHE), Work(Save), Post(CACHE), Work(Local), Work(Remote),
       Post(CLIENT)]
    case CloseFile(NotCached) => [Wait(CLIENT), Work(Entry), Post(CLIENT)]
    case CloseFile(NotDirty) => [Wait(CLIENT), Work(Entry), Post(CLIENT)]
    case CloseFile(NoCopy) => [Wait(CLIENT), Work(Entry), Work(Local), Post(CLIENT)]
    case CloseFile(ReadFailed) => [Wait(CLIENT), Work(Entry), Work(Local), Work(Remote), Work(Local), Post(CLIENT)]
    case CloseFile(StreamBroke) => [Wait(CLIENT), Work(Entry), Work(Local), Work(Remote), Post(CLIENT)]
    case CloseFile(Sent) => [Wait(CLIENT), Work(Entry), Work(Local), Work(Remote), Work(Local), Post(CLIENT)]
    case CreateFile(NotOpened) => [Wait(CLIENT), Work(Remote), Work(Local), Post(CLIENT)]
    case CreateFile(Added) => [Wait(CLIENT), Work(Remote), Work(Local), Wait(CACHE), Work(Save), Post(CACHE), Post(CLIENT)]
    case CreateFile(CallFailed) => [Wait(CLIENT), Work(Remote), Post(CLIENT)]
    case DeleteFile(true) => [Wait(CLIENT), Work(Remote), Work(Entry), Wait(CACHE), Work(Save), Post(CACHE), Post(CLIENT)]
    case DeleteFile(false) => [Wait(CLIENT), Work(Remote), Work(Entry), Post(CLIENT)]
    case RenameFile(Uncached) => [Wait(CLIENT), Work(Entry), Work(Remote), Post(CLIENT)]
    case RenameFile(NotMoved) => [Wait(CLIENT), Work(Entry), Wait(CACHE), Work(Save), Post(CACHE), Work(Entry), Post(CLIENT)]
    case RenameFile(Moved) =>
      [Wait(CLIENT), Work(Entry), Wait(CACHE), Work(Save), Post(CACHE), Work(Entry), Work(Remote), Post(CLIENT)]
    case WriteFile(true) => [Work(Entry), Wait(CACHE), Work(Save), Post(CACHE)]
    case WriteFile(false) => [Work(Entry)]
    case TruncateFile(true) => [Work(Entry), Work(Local)]
    case TruncateFile(false) => [Work(Entry)]
    case AccessFile => [Work(Other)]
    case Chmod(true) => [Work(Entry), Work(Local), Work(Other)]
    case Chmod(false) => [Work(Entry), Work(Other)]
  }

  datatype Callback =
    | Locked(call: ClientCall, failed: bool)  // getattr, unlink, open, flush, create, truncate, access, rename, ...
    | Read(reopen: Option<OpenExit>, fd: int)
    | Write(reopen: Option<OpenExit>, fd: int, clean: bool)
    | Unlocked                                // mkdir, rmdir, release, readdir and the like

  function Reopen(e: Option<OpenExit>): seq<Action> {
    if e.Some? then ClientPath(OpenFile(e.value)) else []
  }

  /** What a callback does up to its return.  Without a file handle, reading and writing open the
      file first; reading through descriptor -1 posts a semaphore it never waited for. */
  function Path(c: Callback): seq<Action> {
    match c
    case Locked(call, true) => [Wait(OP)] + ClientPath(call) + [Post(OP)]
    case Locked(call, false) => [Wait(OP)] + ClientPath(call) + [Work(Local), Post(OP)]
    case Read(e, fd) => Reopen(e) + (if fd == -1 then [Post(OP)] else [Work(Local)])
    case Write(e, fd, clean) => Reopen(e) + (if fd == -1 then [] else [Work(Local)] + ClientPath(WriteFile(clean)))
    case Unlocked => [Work(Other)]
  }

  predicate StrayPost(c: Callback) {
    c.Read? && c.fd == -1
  }

  // ----- the discipline ------------------------------------------------------------------

  /** The cache is changed and saved under its own semaphore, and a file of the server is
      read or changed under `clientSem`. */
  predicate Allowed(job: Job, held: set<Sem>) {
    && (job == Save ==> CACHE in held)
    && (job == Remote ==> CLIENT in held)
  }

  /** What is held after some actions, if each wait is for a later semaphore than those
      held, each post for one that is held, and each job is allowed. */
  function After(acts: seq<Action>, held: set<Sem>): Option<set<Sem>> {
    if acts == [] then Some(held)
    else
      match acts[0]
      case Wait(x) => if forall y :: y in held ==> y < x then After(acts[1..], held + {x}) else None
      case Post(x) => if x in held then After(acts[1..], held - {x}) else None
      case Work(job) => if Allowed(job, held) then After(acts[1..], held) else None
  }

  lemma {:induction false} AfterConcat(a: seq<Action>, b: seq<Action>, held: set<Sem>)
    ensures After(a + b, held) == if After(a, held).None? then None else After(b, After(a, held).value)
    decreases |a|
  {
    if a == [] {
      assert a + b == b;
    } else {
      assert (a + b)[0] == a[0] && (a + b)[1..] == a[1..] + b;
      match a[0]
      case Wait(x) => AfterConcat(a[1..], b, held + {x});
      case Post(x) => AfterConcat(a[1..], b, held - {x});
      case Work(_) => AfterConcat(a[1..], b, held);
    }
  }

  /** The actions are allowed while `held` is held, and leave it as it was. */
  ghost predicate Balanced(acts: seq<Action>, held: set<Sem>) {
    After(acts, held) == Some(held)
  }

  lemma {:induction false} Sequel(a: seq<Action>, b: seq<Action>, held: set<Sem>)
    requires Balanced(a, held) && Balanced(b, held)
    ensures Balanced(a + b, held)
  {
    AfterConcat(a, b, held);
  }

  /** Only jobs, all of them allowed. */
  ghost predicate Jobs(acts: seq<Action>, held: set<Sem>) {
    forall i :: 0 <= i < |acts| ==> acts[i].Work? && Allowed(acts[i].job, held)
  }

  lemma {:induction false} Works(acts: seq<Action>, held: set<Sem>)
    requires Jobs(acts, held)
    ensures Balanced(acts, held)
  {
    if acts != [] {
      Works(acts[1..], held);
    }
  }

  /** Waiting, a balanced body and posting are balanced. */
  lemma {:induction false} Bracket(x: Sem, body: seq<Action>, held: set<Sem>)
    requires forall y :: y in held ==> y < x
    requires Balanced(body, held + {x})
    ensures Balanced([Wait(x)] + body + [Post(x)], held)
  {
    AfterConcat([Wait(x)], body, held);
    AfterConcat([Wait(x)] + body, [Post(x)], held);
    assert [Wait(x)][1..] == [] && [Post(x)][1..] == [];
    assert held + {x} - {x} == held;
  }

  /** Jobs before and after one change of the cache. */
  lemma {:induction false} AroundCache(before: seq<Action>, behind: seq<Action>, held: set<Sem>)
    requires CACHE !in held && Jobs(before, held) && Jobs(behind, held)
    ensures Balanced(before + [Wait(CACHE), Work(Save), Post(CACHE)] + behind, held)
  {
    Works([Work(Save)], held + {CACHE});
    Bracket(CACHE, [Work(Save)], held);
    assert [Wait(CACHE)] + [Work(Save)] + [Post(CACHE)] == [Wait(CACHE), Work(Save), Post(CACHE)];
    Works(before, held);
    Works(behind, held);
    Sequel(before, [Wait(CACHE), Work(Save), Post(CACHE)], held);
    Sequel(before + [Wait(CACHE), Work(Save), Post(CACHE)], behind, held);
  }

  /** A client call that only works inside its semaphore. */
  lemma {:induction false} WorkInside(acts: seq<Action>, body: seq<Action>, held: set<Sem>)
    requires (forall y :: y in held ==> y < CLIENT) && Jobs(body, held + {CLIENT})
    requires acts == [Wait(CLIENT)] + body + [Post(CLIENT)]
    ensures Balanced(acts, held)
  {
    Works(body, held + {CLIENT});
    Bracket(CLIENT, body, held);
  }

  /** A client call that changes the cache once inside its semaphore. */
  lemma {:induction false} CacheInside(acts: seq<Action>, before: seq<Action>, behind: seq<Action>, held: set<Sem>)
    requires forall y :: y in held ==> y < CLIENT
    requires Jobs(before, held + {CLIENT}) && Jobs(behind, held + {CLIENT})
    requires acts ==
             [Wait(CLIENT)] + (before + [Wait(CACHE), Work(Save), Post(CACHE)] + behind) + [Post(CLIENT)]
    ensures Balanced(acts, held)
  {
    AroundCache(before, behind, held + {CLIENT});
    Bracket(CLIENT, before + [Wait(CACHE), Work(Save), Post(CACHE)] + behind, held);
  }

  lemma {:induction false} OpenPathOk(e: OpenExit, held: set<Sem>)
    requires forall y :: y in held ==> y < CLIENT
    ensures Balanced(ClientPath(OpenFile(e)), held)
  {
    var first := [Work(Remote), Work(Local), Work(Entry)];
    match e
    case ServerError => WorkInside(ClientPath(OpenFile(e)), [Work(Remote)], held);
    case NoLocalFile => WorkInside(ClientPath(OpenFile(e)), [Work(Remote), Work(Local)], held);
    case WriteFailed(_) => CacheInside(ClientPath(OpenFile(e)), first, [Work(Local)], held);
    case NoMessage => WorkInside(ClientPath(OpenFile(e)), [Work(Remote)], held);
    case Received(_) => CacheInside(ClientPath(OpenFile(e)), first, [Work(Local), Work(Remote)], held);
  }

  lemma {:induction false} ClosePathOk(e: CloseExit, held: set<Sem>)
    requires forall y :: y in held ==> y < CLIENT
    ensures Balanced(ClientPath(CloseFile(e)), held)
  {
    var jobs := match e
      case NotCached => [Work(Entry)]
      case NotDirty => [Work(Entry)]
      case NoCopy => [Work(Entry), Work(Local)]
      case ReadFailed => [Work(Entry), Work(Local), Work(Remote), Work(Local)]
      case StreamBroke => [Work(Entry), Work(Local), Work(Remote)]
      case Sent => [Work(Entry), Work(Local), Work(Remote), Work(Local)];
    WorkInside(ClientPath(CloseFile(e)), jobs, held);
  }

  lemma {:induction false} NamePathOk(c: ClientCall, held: set<Sem>)
    requires (c.CreateFile? || c.DeleteFile? || c.RenameFile?) && forall y :: y in held ==> y < CLIENT
    ensures Balanced(ClientPath(c), held)
  {
    match c
    case CreateFile(NotOpened) => WorkInside(ClientPath(c), [Work(Remote), Work(Local)], held);
    case CreateFile(Added) => CacheInside(ClientPath(c), [Work(Remote), Work(Local)], [], held);
    case CreateFile(CallFailed) => WorkInside(ClientPath(c), [Work(Remote)], held);
    case DeleteFile(true) => CacheInside(ClientPath(c), [Work(Remote), Work(Entry)], [], held);
    case DeleteFile(false) => WorkInside(ClientPath(c), [Work(Remote), Work(Entry)], held);
    case RenameFile(Uncached) => WorkInside(ClientPath(c), [Work(Entry), Work(Remote)], held);
    case RenameFile(NotMoved) => CacheInside(ClientPath(c), [Work(Entry)], [Work(Entry)], held);
    case RenameFile(Moved) => CacheInside(ClientPath(c), [Work(Entry)], [Work(Entry), Work(Remote)], held);
  }

  lemma {:induction false} ClientPathOk(c: ClientCall, held: set<Sem>)
    requires forall y :: y in held ==> y < CLIENT
    ensures Balanced(ClientPath(c), held)
  {
    match c
    case GetAttr(cached) => WorkInside(ClientPath(c), [Work(Entry), Work(if cached then Local else Remote)], held);
    case OpenFile(e) => OpenPathOk(e, held);
    case CloseFile(e) => ClosePathOk(e, held);
    case CreateFile(_) => NamePathOk(c, held);
    case DeleteFile(_) => NamePathOk(c, held);
    case RenameFile(_) => NamePathOk(c, held);
    case WriteFile(true) =>
      AroundCache([Work(Entry)], [], held);
      assert [Work(Entry)] + [Wait(CACHE), Work(Save), Post(CACHE)] + [] == ClientPath(c);
    case WriteFile(false) => Works(ClientPath(c), held);
    case TruncateFile(_) => Works(ClientPath(c), held);
    case AccessFile => Works(ClientPath(c), held);
    case Chmod(_) => Works(ClientPath(c), held);
  }

  /** Every return path of every callback takes the semaphores in order, changes the cache and
      reaches the server only under the semaphores for it, and gives them all back, except the
      one of `read` that finds descriptor -1. */
  lemma {:induction false} PathDisciplinedIff(c: Callback)
    ensures After(Path(c), {}) == Some({}) <==> !StrayPost(c)
  {
    Works([Work(Local)], {});
    match c
    case Locked(call, failed) =>
      LockedOk(call, failed);
    case Read(e, fd) =>
      ReopenOk(e);
      AfterConcat(Reopen(e), if fd == -1 then [Post(OP)] else [Work(Local)], {});
    case Write(e, fd, clean) =>
      ReopenOk(e);
      ClientPathOk(WriteFile(clean), {});
      Sequel([Work(Local)], ClientPath(WriteFile(clean)), {});
      Sequel(Reopen(e), if fd == -1 then [] else [Work(Local)] + ClientPath(WriteFile(clean)), {});
    case Unlocked => Works([Work(Other)], {});
  }

  lemma {:induction false} LockedOk(call: ClientCall, failed: bool)
    ensures Balanced(Path(Locked(call, failed)), {})
  {
    ClientPathOk(call, {OP});
    Works([Work(Local)], {OP});
    Sequel(ClientPath(call), [Work(Local)], {OP});
    assert {} + {OP} == {OP};
    if failed {
      Bracket(OP, ClientPath(call), {});
    } else {
      Bracket(OP, ClientPath(call) + [Work(Local)], {});
      assert [Wait(OP)] + (ClientPath(call) + [Work(Local)]) + [Post(OP)] == Path(Locked(call, failed));
    }
  }

  lemma {:induction false} ReopenOk(e: Option<OpenExit>)
    ensures Balanced(Reopen(e), {})
  {
    if e.Some? {
      ClientPathOk(OpenFile(e.value), {});
    }
  }

  // ----- threads --------------------------------------------------------------------------

  datatype Thread = Thread(todo: seq<Action>, held: set<Sem>)
  datatype State = State(values: seq<nat>, threads: seq<Thread>)

  predicate Enabled(s: State, t: nat)
    requires |s.values| == 3
  {
    t < |s.threads| && s.threads[t].todo != [] &&
    (s.threads[t].todo[0].Wait? ==> s.values[s.threads[t].todo[0].x] > 0)
  }

  function Advance(th: Thread): Thread
    requires th.todo != []
  {
    match th.todo[0]
    case Wait(x) => Thread(th.todo[1..], th.held + {x})
    case Post(x) => Thread(th.todo[1..], th.held - {x})
    case Work(_) => Thread(th.todo[1..], th.held)
  }

  function Step(s: State, t: nat): (r: State)
    requires |s.values| == 3 && Enabled(s, t)
    ensures |r.values| == 3
  {
    State(match s.threads[t].todo[0]
          case Wait(x) => s.values[x := s.values[x] - 1]
          case Post(x) => s.values[x := s.values[x] + 1]
          case Work(_) => s.values,
          s.threads[t := Advance(s.threads[t])])
  }

  predicate IsRun(s: State, ts: seq<nat>)
    requires |s.values| == 3
    decreases |ts|
  {
    ts == [] || (Enabled(s, ts[0]) && IsRun(Step(s, ts[0]), ts[1..]))
  }

  function Run(s: State, ts: seq<nat>): (r: State)
    requires |s.values| == 3 && IsRun(s, ts)
    ensures |r.values| == 3
    decreases |ts|
  {
    if ts == [] then s else Run(Step(s, ts[0]), ts[1..])
  }

  function Holders(threads: seq<Thread>, x: Sem): nat {
    if threads == [] then 0 else (if x in threads[0].held then 1 else 0) + Holders(threads[1..], x)
  }

  ghost predicate Disciplined(th: Thread) {
    After(th.todo, th.held) == Some({})
  }

  /** Each semaphore's value and the number of its holders make one. */
  ghost predicate Inv(s: State) {
    && |s.values| == 3
    && (forall t :: 0 <= t < |s.threads| ==> Disciplined(s.threads[t]))
    && (forall x: Sem :: s.values[x] + Holders(s.threads, x) == 1)
  }

  lemma {:induction false} HoldersUpdate(threads: seq<Thread>, t: nat, th: Thread, x: Sem)
    requires t < |threads|
    ensures Holders(threads[t := th], x) + (if x in threads[t].held then 1 else 0) ==
            Holders(threads, x) + (if x in th.held then 1 else 0)
    decreases |threads|
  {
    if t == 0 {
      assert threads[0 := th][1..] == threads[1..];
    } else {
      assert threads[t := th][1..] == threads[1..][t - 1 := th];
      HoldersUpdate(threads[1..], t - 1, th, x);
    }
  }

  lemma {:induction false} InvStep(s: State, t: nat)
    requires Inv(s) && Enabled(s, t)
    ensures Inv(Step(s, t))
  {
    var th := s.threads[t];
    var r := Step(s, t);
    assert Disciplined(th);
    assert Disciplined(Advance(th));
    forall x: Sem
      ensures r.values[x] + Holders(r.threads, x) == 1
    {
      HoldersUpdate(s.threads, t, Advance(th), x);
    }
  }

  lemma {:induction false} InvRun(s: State, ts: seq<nat>)
    requires Inv(s) && IsRun(s, ts)
    ensures Inv(Run(s, ts))
    decreases |ts|
  {
    if ts != [] {
      InvStep(s, ts[0]);
      InvRun(Step(s, ts[0]), ts[1..]);
    }
  }

  /** Threads about to run some callbacks, with every semaphore free. */
  ghost predicate Fresh(s: State, work: seq<seq<Callback>>) {
    && s.values == [1, 1, 1]
    && |s.threads| == |work|
    && forall t :: 0 <= t < |work| ==> s.threads[t] == Thread(Paths(work[t]), {})
  }

  function Paths(cs: seq<Callback>): seq<Action> {
    if cs == [] then [] else Path(cs[0]) + Paths(cs[1..])
  }

  lemma {:induction false} PathsDisciplined(cs: seq<Callback>)
    requires forall i :: 0 <= i < |cs| ==> !StrayPost(cs[i])
    ensures After(Paths(cs), {}) == Some({})
  {
    if cs != [] {
      PathDisciplinedIff(cs[0]);
      PathsDisciplined(cs[1..]);
      AfterConcat(Path(cs[0]), Paths(cs[1..]), {});
    }
  }

  lemma {:induction false} NobodyHolds(threads: seq<Thread>, x: Sem)
    requires forall t :: 0 <= t < |threads| ==> threads[t].held == {}
    ensures Holders(threads, x) == 0
  {
    if threads != [] {
      NobodyHolds(threads[1..], x);
    }
  }

  /** In every reachable state of any number of threads, each semaphore is free or has
      exactly one holder. */
  lemma {:induction false} RunInv(s: State, work: seq<seq<Callback>>, ts: seq<nat>)
    requires Fresh(s, work) && IsRun(s, ts)
    requires forall t, i :: 0 <= t < |work| && 0 <= i < |work[t]| ==> !StrayPost(work[t][i])
    ensures Inv(Run(s, ts))
  {
    forall t | 0 <= t < |work|
      ensures Disciplined(s.threads[t])
    {
      PathsDisciplined(work[t]);
    }
    forall x: Sem
      ensures s.values[x] + Holders(s.threads, x) == 1
    {
      NobodyHolds(s.threads, x);
    }
    InvRun(s, ts);
  }

  lemma {:induction false} HolderCounts(threads: seq<Thread>, t: nat, x: Sem)
    requires t < |threads| && x in threads[t].held
    ensures Holders(threads, x) >= 1
    ensures forall u :: 0 <= u < |threads| && u != t && x in threads[u].held ==> Holders(threads, x) >= 2
    decreases |threads|
  {
    if t > 0 {
      HolderCounts(threads[1..], t - 1, x);
      forall u | 0 <= u < |threads| && u != t && x in threads[u].held
        ensures Holders(threads, x) >= 2
      {
        if u > 0 {
          assert threads[1..][u - 1] == threads[u];
        }
      }
    } else {
      forall u | 0 < u < |threads| && x in threads[u].held
        ensures Holders(threads[1..], x) >= 1
      {
        HolderCounts(threads[1..], u - 1, x);
      }
    }
  }

  /** Mutual exclusion. */
  lemma {:induction false} Exclusive(s: State, t: nat, u: nat, x: Sem)
    requires Inv(s) && t < |s.threads| && u < |s.threads| && t != u
    ensures !(x in s.threads[t].held && x in s.threads[u].held)
  {
    if x in s.threads[t].held {
      HolderCounts(s.threads, t, x);
    }
  }

  /** The thread is at a job of this kind. */
  predicate At(s: State, t: nat, job: Job) {
    t < |s.threads| && s.threads[t].todo != [] && s.threads[t].todo[0] == Work(job)
  }

  /** No two threads change and save the cache at once, and no two reach the server's files
      at once; whoever does holds the semaphore for it, and it is taken. */
  lemma {:induction false} JobsApart(s: State, work: seq<seq<Callback>>, ts: seq<nat>, t: nat, u: nat, job: Job)
    requires Fresh(s, work) && IsRun(s, ts)
    requires forall t, i :: 0 <= t < |work| && 0 <= i < |work[t]| ==> !StrayPost(work[t][i])
    requires At(Run(s, ts), t, job) && (job == Save || job == Remote)
    ensures var x := if job == Save then 2 else 1;
            x in Run(s, ts).threads[t].held && Run(s, ts).values[x] == 0
    ensures At(Run(s, ts), u, job) ==> u == t
  {
    RunInv(s, work, ts);
    var r := Run(s, ts);
    var x: Sem := if job == Save then CACHE else CLIENT;
    assert Disciplined(r.threads[t]);
    HolderCounts(r.threads, t, x);
    if At(r, u, job) && u != t {
      assert Disciplined(r.threads[u]);
      Exclusive(r, t, u, x);
    }
  }

  /** But entries are found and edited without the cache's semaphore: while one callback is
      about to insert its new file, the write of another can be about to find its own. */
  lemma {:induction false} EntryRaces(failed: bool, fd: int, clean: bool) returns (ts: seq<nat>)
    requires fd != -1
    ensures var s := State([1, 1, 1], [Thread(Path(Locked(CreateFile(Added), failed)), {}), Thread(Path(Write(None, fd, clean)), {})]);
            IsRun(s, ts) && At(Run(s, ts), 0, Save) && At(Run(s, ts), 1, Entry)
  {
    var c, w := Path(Locked(CreateFile(Added), failed)), Path(Write(None, fd, clean));
    assert c[..6] == [Wait(OP), Wait(CLIENT), Work(Remote), Work(Local), Wait(CACHE), Work(Save)];
    assert w[..2] == [Work(Local), Work(Entry)];
    ts := Race(c, w);
  }

  lemma {:induction false} Race(c: seq<Action>, w: seq<Action>) returns (ts: seq<nat>)
    requires |c| >= 6 && c[..6] == [Wait(OP), Wait(CLIENT), Work(Remote), Work(Local), Wait(CACHE), Work(Save)]
    requires |w| >= 2 && w[..2] == [Work(Local), Work(Entry)]
    ensures var s := State([1, 1, 1], [Thread(c, {}), Thread(w, {})]);
            IsRun(s, ts) && At(Run(s, ts), 0, Save) && At(Run(s, ts), 1, Entry)
  {
    hide Run, IsRun, At;
    assert forall i :: 0 <= i < 6 ==> c[i] == c[..6][i];
    var h: set<Sem> := {} + {OP};
    var s1 := State([0, 1, 1], [Thread(c[1..], h), Thread(w, {})]);
    var s2 := State([0, 0, 1], [Thread(c[2..], h + {CLIENT}), Thread(w, {})]);
    assert c[2..][..4] == c[..6][2..];
    ts := RaceInside(c[2..], w, h + {CLIENT});
    StepsTo(s1, 0, s2, ts);
    ts := [0] + ts;
    StepsTo(State([1, 1, 1], [Thread(c, {}), Thread(w, {})]), 0, s1, ts);
    ts := [0] + ts;
  }

  lemma {:induction false} RaceInside(c: seq<Action>, w: seq<Action>, h: set<Sem>) returns (ts: seq<nat>)
    requires |c| >= 4 && c[..4] == [Work(Remote), Work(Local), Wait(CACHE), Work(Save)]
    requires |w| >= 2 && w[..2] == [Work(Local), Work(Entry)]
    ensures var s := State([0, 0, 1], [Thread(c, h), Thread(w, {})]);
            IsRun(s, ts) && At(Run(s, ts), 0, Save) && At(Run(s, ts), 1, Entry)
  {
    assert forall i :: 0 <= i < 4 ==> c[i] == c[..4][i];
    assert w[0] == w[..2][0] && w[1] == w[..2][1];
    ts := RaceEnd(c[2..], w, h);
    var s1 := State([0, 0, 1], [Thread(c[1..], h), Thread(w, {})]);
    StepsTo(s1, 0, State([0, 0, 1], [Thread(c[2..], h), Thread(w, {})]), ts);
    ts := [0] + ts;
    StepsTo(State([0, 0, 1], [Thread(c, h), Thread(w, {})]), 0, s1, ts);
    ts := [0] + ts;
  }

  lemma {:induction false} RaceEnd(c: seq<Action>, w: seq<Action>, h: set<Sem>) returns (ts: seq<nat>)
    requires |c| >= 2 && c[0] == Wait(CACHE) && c[1] == Work(Save)
    requires |w| >= 2 && w[0] == Work(Local) && w[1] == Work(Entry)
    ensures var s := State([0, 0, 1], [Thread(c, h), Thread(w, {})]);
            IsRun(s, ts) && At(Run(s, ts), 0, Save) && At(Run(s, ts), 1, Entry)
  {
    var s1 := State([0, 0, 0], [Thread(c[1..], h + {CACHE}), Thread(w, {})]);
    var s2 := State([0, 0, 0], [Thread(c[1..], h + {CACHE}), Thread(w[1..], {})]);
    ts := [];
    StepsTo(s1, 1, s2, ts);
    ts := [1] + ts;
    StepsTo(State([0, 0, 1], [Thread(c, h), Thread(w, {})]), 0, s1, ts);
    ts := [0] + ts;
  }

  lemma {:induction false} StepsTo(s: State, t: nat, r: State, ts: seq<nat>)
    requires |s.values| == 3 && |r.values| == 3 && Enabled(s, t) && Step(s, t) == r && IsRun(r, ts)
    ensures IsRun(s, [t] + ts) && Run(s, [t] + ts) == Run(r, ts)
  {
    assert ([t] + ts)[1..] == ts;
  }

  lemma {:induction false} SomeHolder(threads: seq<Thread>, x: Sem) returns (t: nat)
    requires Holders(threads, x) > 0
    ensures t < |threads| && x in threads[t].held
  {
    if x in threads[0].held {
      t := 0;
    } else {
      var u := SomeHolder(threads[1..], x);
      t := u + 1;
    }
  }

  /** What a thread waits for next, after everything it holds. */
  function Rank(th: Thread): nat {
    if th.todo != [] && th.todo[0].Wait? then 3 - th.todo[0].x else 0
  }

  /** No deadlock: while some thread has not finished, some thread can step. */
  lemma {:induction false} Progress(s: State, t: nat) returns (u: nat)
    requires Inv(s) && t < |s.threads| && s.threads[t].todo != []
    ensures Enabled(s, u)
    decreases Rank(s.threads[t])
  {
    u := t;
    if !Enabled(s, t) {
      var x := s.threads[t].todo[0].x;
      var h := SomeHolder(s.threads, x);
      assert Disciplined(s.threads[h]);
      u := Progress(s, h);
    }
  }

  /** A run that can go no further has finished everything, with every semaphore free. */
  lemma {:induction false} StuckIsFinished(s: State)
    requires Inv(s) && forall t :: 0 <= t < |s.threads| ==> !Enabled(s, t)
    ensures forall t :: 0 <= t < |s.threads| ==> s.threads[t] == Thread([], {})
    ensures s.values == [1, 1, 1]
  {
    forall t | 0 <= t < |s.threads|
      ensures s.threads[t] == Thread([], {})
    {
      assert Disciplined(s.threads[t]);
      if s.threads[t].todo != [] {
        var u := Progress(s, t);
      }
    }
    forall x: Sem
      ensures s.values[x] == 1
    {
      NobodyHolds(s.threads, x);
    }
  }

  function Remaining(threads: seq<Thread>): nat {
    if threads == [] then 0 else |threads[0].todo| + Remaining(threads[1..])
  }

  lemma {:induction false} RemainingUpdate(threads: seq<Thread>, t: nat, th: Thread)
    requires t < |threads|
    ensures Remaining(threads[t := th]) + |threads[t].todo| == Remaining(threads) + |th.todo|
    decreases |threads|
  {
    if t == 0 {
      assert threads[0 := th][1..] == threads[1..];
    } else {
      assert threads[t := th][1..] == threads[1..][t - 1 := th];
      RemainingUpdate(threads[1..], t - 1, th);
    }
  }

  /** And every run gets there: its length is bounded by the actions there are. */
  lemma {:induction false} RunsEnd(s: State, ts: seq<nat>)
    requires |s.values| == 3 && IsRun(s, ts)
    ensures |ts| + Remaining(Run(s, ts).threads) == Remaining(s.threads)
    decreases |ts|
  {
    if ts != [] {
      RemainingUpdate(s.threads, ts[0], Advance(s.threads[ts[0]]));
      RunsEnd(Step(s, ts[0]), ts[1..]);
    }
  }

  /** After a stray post, two callbacks can be inside `wiscOPSem` at once. */
  lemma {:induction false} StrayPostBreaks(a: ClientCall, b: ClientCall, x: bool, y: bool)
    ensures var s := State([1, 1, 1], [Thread(Path(Read(None, -1)), {}), Thread(Path(Locked(a, x)), {}), Thread(Path(Locked(b, y)), {})]);
            && IsRun(s, [0, 1, 2])
            && OP in Run(s, [0, 1, 2]).threads[1].held && OP in Run(s, [0, 1, 2]).threads[2].held
  {
    var s := State([1, 1, 1], [Thread(Path(Read(None, -1)), {}), Thread(Path(Locked(a, x)), {}), Thread(Path(Locked(b, y)), {})]);
    assert Path(Read(None, -1)) == [Post(OP)];
    assert Path(Locked(a, x))[0] == Wait(OP) && Path(Locked(b, y))[0] == Wait(OP);
    var s1 := Step(s, 0);
    var s2 := Step(s1, 1);
    var s3 := Step(s2, 2);
    assert [0, 1, 2][1..] == [1, 2] && [1, 2][1..] == [2] && [2][1..] == [];
    assert Run(s2, [2]) == s3;
  }
}
