/**
 The atomic locked store (src/storage/transaction.rs, src/storage/directory.rs):
 one named file in a directory, rewritten by any number of writers under a file
 lock and read by anyone without it.

 The machine has one event per file operation. An actor may fail or crash
 between any two of them, an outside editor may replace the file at any moment,
 and a power loss may undo every directory change that was not synced yet and
 spoil every file that was not. A caller holding a `LockedStore` re-reads the
 file before it commits; an update does not.
 */
module LockedStore {
  import opened Common

  type Actor = nat
  type File = nat
  type Contents = Option<bytes>

  const LIMIT: nat := 4 * 1024 * 1024

  datatype Node = Node(content: bytes, synced: bool)

  /** An update runs its change on the previous contents; `Hold` keeps the lock for a later commit. */
  datatype Job = Update(change: Contents -> Contents) | Hold

  /** A pending write. `based` counts the commits when its previous contents were last read. */
  datatype Ticket = Ticket(job: Job, previous: Contents, bytes: bytes, based: nat)

  datatype Pc =
    | Reading(job: Job)
    | Held(previous: Contents, based: nat)
    | Unchanged(previous: Contents, based: nat)   // the change made no difference: nothing to write
    | Discarding(ticket: Ticket)
    | Creating(ticket: Ticket)
    | Filling(ticket: Ticket, file: File)
    | Checking(ticket: Ticket, file: File)
    | Renaming(ticket: Ticket, file: File)
    | Syncing(ticket: Ticket, index: nat)
    | Recording(ticket: Ticket, index: nat)
    | Opened(entry: Option<File>)         // a reader, without the lock
    | Seen(contents: Contents)            // what it read

  datatype Origin = Outside | Written(ticket: Ticket)

  /** The directory entry once named this file, holding these contents. */
  datatype Commit = Commit(file: Option<File>, contents: Contents, origin: Origin)

  datatype State = State(
    nodes: map<File, Node>,
    names: seq<Option<File>>,      // the entry as last synced, then as changed since; the last one is live
    pending: Option<File>,         // the temporary entry
    lock: Option<Actor>,
    actors: map<Actor, Pc>,
    log: seq<Commit>)              // history, never read by a step

  datatype Event =
    | Acquire(actor: Actor, job: Job)
    | Read(actor: Actor)
    | Put(actor: Actor, bytes: bytes)
    | Discard(actor: Actor)
    | Create(actor: Actor, file: File)
    | Fill(actor: Actor, size: nat)
    | SyncFile(actor: Actor)
    | Check(actor: Actor)
    | Rename(actor: Actor)
    | SyncDirectory(actor: Actor)
    | Finish(actor: Actor)
    | Fail(actor: Actor)
    | Open(actor: Actor)
    | Look(actor: Actor)
    | Edit(entry: Option<File>, bytes: bytes)
    | PowerLoss(survivor: nat, temporary: Option<File>, spoiled: map<File, bytes>)

  // ------------------------------------------------------------------ steps

  ghost predicate Reader(pc: Pc) {
    pc.Opened? || pc.Seen?
  }

  ghost predicate At(s: State, a: Actor) {
    a in s.actors && (s.lock == Some(a) || Reader(s.actors[a]))
  }

  ghost function ContentsOf(nodes: map<File, Node>, file: Option<File>): Contents {
    if file.Some? && file.value in nodes then Some(nodes[file.value].content) else None
  }

  /** What a read of the name finds now. */
  ghost function Live(s: State): Contents
    requires s.names != []
  {
    ContentsOf(s.nodes, Last(s.names))
  }

  ghost function Goto(s: State, a: Actor, pc: Pc): State {
    s.(actors := s.actors[a := pc])
  }

  /** The call returns (`Finish` with Ok, else with Err), or its process dies: a held lock is released, the temporary file stays. */
  ghost function Leave(s: State, a: Actor): State {
    s.(actors := s.actors - {a}, lock := if s.lock == Some(a) then None else s.lock)
  }

  ghost predicate Enabled(s: State, e: Event) {
    s.names != [] &&
    match e
    case Acquire(a, job) => a !in s.actors && s.lock.None?
    case Read(a) => At(s, a) && s.actors[a].Reading?
    case Put(a, _) => At(s, a) && s.actors[a].Held?
    case Discard(a) => At(s, a) && s.actors[a].Discarding?
    case Create(a, f) => At(s, a) && s.actors[a].Creating? && f !in s.nodes
    case Fill(a, n) =>
      At(s, a) && s.actors[a].Filling? && s.actors[a].file in s.nodes && n <= |s.actors[a].ticket.bytes|
    case SyncFile(a) =>
      && At(s, a) && s.actors[a].Filling? && s.actors[a].file in s.nodes
      && s.nodes[s.actors[a].file].content == s.actors[a].ticket.bytes
    case Check(a) => At(s, a) && s.actors[a].Checking?
    case Rename(a) => At(s, a) && s.actors[a].Renaming?
    case SyncDirectory(a) => At(s, a) && s.actors[a].Syncing?
    case Finish(a) => At(s, a) && (s.actors[a].Recording? || s.actors[a].Unchanged?)
    case Fail(a) => At(s, a)
    case Open(a) => a !in s.actors
    case Look(a) => At(s, a) && s.actors[a].Opened?
    case Edit(f, _) => f.Some? ==> f.value !in s.nodes
    case PowerLoss(k, pending, _) => k < |s.names| && (pending.Some? ==> pending.value in s.nodes)
  }

  ghost function Apply(s: State, e: Event): State
    requires Enabled(s, e)
  {
    match e
    case Acquire(a, job) => Goto(s, a, Reading(job)).(lock := Some(a))
    case Read(a) => AfterRead(s, a)
    case Put(a, bytes) => AfterCommit(s, a, bytes)
    case Discard(a) => Goto(s, a, Creating(s.actors[a].ticket)).(pending := None)
    case Create(a, f) => Created(s, a, f)
    case Fill(a, n) => Filled(s, a, n)
    case SyncFile(a) => FileSynced(s, a)
    case Check(a) => Checked(s, a)
    case Rename(a) => Renamed(s, a)
    case SyncDirectory(a) =>
      Goto(s, a, Recording(s.actors[a].ticket, s.actors[a].index)).(names := [Last(s.names)])
    case Finish(a) => Leave(s, a)
    case Fail(a) => Leave(s, a)
    case Open(a) => Goto(s, a, Opened(Last(s.names)))
    case Look(a) => Goto(s, a, Seen(ContentsOf(s.nodes, s.actors[a].entry)))
    case Edit(f, bytes) => Edited(s, f, bytes)
    case PowerLoss(k, pending, spoiled) => Survived(s, k, pending, spoiled)
  }

  /** The previous contents are read; an update also runs its change and may have nothing to write. */
  ghost function AfterRead(s: State, a: Actor): State
    requires s.names != [] && a in s.actors && s.actors[a].Reading?
  {
    var previous := Live(s);
    match s.actors[a].job
    case Hold => if TooLong(previous) then Leave(s, a) else Goto(s, a, Held(previous, |s.log|))
    case Update(change) =>
      if TooLong(previous) || change(previous).None? then Leave(s, a)
      else if TooLong(change(previous)) then Leave(s, a)
      else if change(previous) == previous then Goto(s, a, Unchanged(previous, |s.log|))
      else Goto(s, a, Discarding(Ticket(Update(change), previous, change(previous).value, |s.log|)))
  }

  predicate TooLong(contents: Contents) {
    contents.Some? && |contents.value| > LIMIT
  }

  /** `commit_created` up to its first check. */
  ghost function AfterCommit(s: State, a: Actor, bytes: bytes): State
    requires s.names != [] && a in s.actors && s.actors[a].Held?
  {
    var previous := s.actors[a].previous;
    if TooLong(Some(bytes)) || Live(s) != previous then Leave(s, a)
    else Goto(s, a, Discarding(Ticket(Hold, previous, bytes, |s.log|)))
  }

  /** The temporary file is created anew; one that is still there is an error. */
  ghost function Created(s: State, a: Actor, f: File): State
    requires a in s.actors && s.actors[a].Creating?
  {
    if s.pending.Some? then Leave(s, a)
    else Goto(s, a, Filling(s.actors[a].ticket, f)).(nodes := s.nodes[f := Node([], false)], pending := Some(f))
  }

  ghost function Filled(s: State, a: Actor, n: nat): State
    requires a in s.actors && s.actors[a].Filling? && n <= |s.actors[a].ticket.bytes|
  {
    s.(nodes := s.nodes[s.actors[a].file := Node(s.actors[a].ticket.bytes[..n], false)])
  }

  ghost function FileSynced(s: State, a: Actor): State
    requires a in s.actors && s.actors[a].Filling? && s.actors[a].file in s.nodes
  {
    var pc := s.actors[a];
    Goto(s, a, Checking(pc.ticket, pc.file)).(nodes := s.nodes[pc.file := s.nodes[pc.file].(synced := true)])
  }

  /** The second check of `commit_created`; an update has none. */
  ghost function Checked(s: State, a: Actor): State
    requires s.names != [] && a in s.actors && s.actors[a].Checking?
  {
    var pc := s.actors[a];
    if pc.ticket.job.Update? then Goto(s, a, Renaming(pc.ticket, pc.file))
    else if Live(s) != pc.ticket.previous then Leave(s, a)
    else Goto(s, a, Renaming(pc.ticket.(based := |s.log|), pc.file))
  }

  /** The temporary entry replaces the name, whatever file it is. */
  ghost function Renamed(s: State, a: Actor): State
    requires a in s.actors && s.actors[a].Renaming?
  {
    var ticket := s.actors[a].ticket;
    if s.pending.None? then Leave(s, a)
    else
      Goto(s, a, Syncing(ticket, |s.log|)).(
        names := s.names + [s.pending], pending := None,
        log := s.log + [Commit(s.pending, ContentsOf(s.nodes, s.pending), Written(ticket))])
  }

  /** An outside editor replaces the file, or removes it. */
  ghost function Edited(s: State, f: Option<File>, bytes: bytes): State {
    s.(names := s.names + [f],
       nodes := if f.Some? then s.nodes[f.value := Node(bytes, true)] else s.nodes,
       log := s.log + [Commit(f, if f.Some? then Some(bytes) else None, Outside)])
  }

  /**
   Power is lost: all actors die, the name is one it had since the last directory
   sync, the temporary entry is anything, and unsynced files hold anything.
   */
  ghost function Survived(s: State, k: nat, pending: Option<File>, spoiled: map<File, bytes>): State
    requires k < |s.names|
  {
    State(
      map f | f in s.nodes :: if s.nodes[f].synced || f !in spoiled then s.nodes[f] else Node(spoiled[f], false),
      [s.names[k]], pending, None, map[],
      if |s.names| <= |s.log| then s.log[..|s.log| - |s.names| + k + 1] else s.log)
  }

  // ------------------------------------------------------------------- runs

  /** Start: a file of unknown origin, or none, and nobody at work. */
  ghost predicate Init(s: State) {
    && s.lock.None? && s.actors == map[] && |s.names| == 1
    && (s.names[0].Some? ==> s.names[0].value in s.nodes && s.nodes[s.names[0].value].synced)
    && (s.pending.Some? ==> s.pending.value in s.nodes && s.pending != s.names[0])
    && s.log == [Commit(s.names[0], Live(s), Outside)]
  }

  ghost predicate Run(states: seq<State>, events: seq<Event>) {
    && |states| == |events| + 1
    && Init(states[0])
    && forall i {:trigger events[i]} :: 0 <= i < |events| ==>
         Enabled(states[i], events[i]) && states[i + 1] == Apply(states[i], events[i])
  }
}
