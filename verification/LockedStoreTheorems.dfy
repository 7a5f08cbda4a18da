/** What every run of the locked store guarantees. */
module LockedStoreTheorems {
  import opened Common
  import opened LockedStore

  // -------------------------------------------------------------- invariant

  ghost predicate OnlyEdits(log: seq<Commit>, from: nat) {
    forall i :: from <= i < |log| ==> log[i].origin.Outside?
  }

  /** The ticket's previous contents are a committed value, and only outside edits came after it. */
  ghost predicate TicketOk(log: seq<Commit>, t: Ticket) {
    && 1 <= t.based <= |log| && t.previous == log[t.based - 1].contents && OnlyEdits(log, t.based)
    && |t.bytes| <= LIMIT
    && (t.job.Update? ==> t.job.change(t.previous) == Some(t.bytes))
  }

  ghost predicate FileOk(nodes: map<File, Node>, c: Commit) {
    if c.file.None? then c.contents.None?
    else c.file.value in nodes && c.contents.Some? && nodes[c.file.value] == Node(c.contents.value, true)
  }

  ghost predicate CommitOk(log: seq<Commit>, k: nat)
    requires k < |log|
  {
    log[k].origin.Written? ==> TicketOk(log[..k], log[k].origin.ticket) && log[k].contents == Some(log[k].origin.ticket.bytes)
  }

  ghost predicate FilesOk(nodes: map<File, Node>, log: seq<Commit>) {
    forall k {:trigger log[k]} :: 0 <= k < |log| ==> FileOk(nodes, log[k])
  }

  ghost predicate Chain(log: seq<Commit>) {
    forall k {:trigger log[k]} :: 0 <= k < |log| ==> CommitOk(log, k)
  }

  /** The directory entry went through the files of the last commits. */
  ghost predicate NamesOk(names: seq<Option<File>>, log: seq<Commit>) {
    && 1 <= |names| <= |log|
    && forall i {:trigger names[i]} :: 0 <= i < |names| ==> names[i] == log[|log| - |names| + i].file
  }

  ghost predicate Uncommitted(log: seq<Commit>, f: File) {
    forall k :: 0 <= k < |log| ==> log[k].file != Some(f)
  }

  /** How many commits no power loss can undo. */
  ghost function Durable(s: State): int {
    |s.log| - |s.names| + 1
  }

  ghost predicate Committed(log: seq<Commit>, file: Option<File>, contents: Contents) {
    exists k :: 0 <= k < |log| && log[k].file == file && log[k].contents == contents
  }

  ghost predicate OwnFile(s: State, t: Ticket, f: File, whole: bool) {
    && TicketOk(s.log, t) && s.pending == Some(f) && f in s.nodes && Uncommitted(s.log, f)
    && (whole ==> s.nodes[f] == Node(t.bytes, true))
  }

  ghost predicate OwnCommit(log: seq<Commit>, t: Ticket, index: nat) {
    index < |log| && log[index].origin == Written(t)
  }

  ghost predicate PcOk(s: State, pc: Pc) {
    match pc
    case Reading(_) => true
    case Held(previous, based) =>
      1 <= based <= |s.log| && previous == s.log[based - 1].contents && OnlyEdits(s.log, based)
    case Unchanged(previous, based) =>
      1 <= based <= |s.log| && previous == s.log[based - 1].contents && OnlyEdits(s.log, based)
    case Discarding(t) => TicketOk(s.log, t)
    case Creating(t) => TicketOk(s.log, t)
    case Filling(t, f) => OwnFile(s, t, f, false)
    case Checking(t, f) => OwnFile(s, t, f, true)
    case Renaming(t, f) => OwnFile(s, t, f, true)
    case Syncing(t, index) => OwnCommit(s.log, t, index)
    case Recording(t, index) => OwnCommit(s.log, t, index) && index < Durable(s)
    case Opened(entry) => exists contents :: Committed(s.log, entry, contents)
    case Seen(contents) => exists file :: Committed(s.log, file, contents)
  }

  ghost predicate LockOk(s: State) {
    forall a :: a in s.actors && !Reader(s.actors[a]) ==> s.lock == Some(a)
  }

  ghost predicate ActorsOk(s: State) {
    forall a :: a in s.actors ==> PcOk(s, s.actors[a])
  }

  ghost predicate Inv(s: State) {
    FilesOk(s.nodes, s.log) && Chain(s.log) && NamesOk(s.names, s.log) && LockOk(s) && ActorsOk(s)
  }

  lemma InitInv(s: State)
    requires Init(s)
    ensures Inv(s)
  {
    assert s.log[0] == Commit(s.names[0], ContentsOf(s.nodes, s.names[0]), Outside);
    assert FileOk(s.nodes, s.log[0]);
  }

  /** What a read of the name finds is the last commit. */
  lemma LiveIsLast(s: State)
    requires FilesOk(s.nodes, s.log) && NamesOk(s.names, s.log)
    ensures s.log != [] && Live(s) == Last(s.log).contents
  {
    assert s.names[|s.names| - 1] == Last(s.log).file;
    assert FileOk(s.nodes, s.log[|s.log| - 1]);
  }

  // ------------------------------------------------- how the invariant is kept

  /** `a` holds the lock, so every other actor is a reader. */
  ghost predicate Holds(s: State, a: Actor) {
    a in s.actors && s.lock == Some(a) && !Reader(s.actors[a])
  }

  lemma ReaderKeeps(s: State, t: State, pc: Pc)
    requires Reader(pc) && PcOk(s, pc) && s.log <= t.log
    ensures PcOk(t, pc)
  {
    match pc {
      case Opened(entry) =>
        var contents :| Committed(s.log, entry, contents);
        CommittedStays(s.log, t.log, entry, contents);
      case Seen(contents) =>
        var file :| Committed(s.log, file, contents);
        CommittedStays(s.log, t.log, file, contents);
    }
  }

  lemma CommittedStays(before: seq<Commit>, after: seq<Commit>, file: Option<File>, contents: Contents)
    requires Committed(before, file, contents) && before <= after
    ensures Committed(after, file, contents)
  {
    var k :| 0 <= k < |before| && before[k].file == file && before[k].contents == contents;
    assert after[k] == before[k];
  }

  /** After a step of the lock holder, only its own position needs a look. */
  lemma HolderStepInv(s: State, t: State, a: Actor)
    requires LockOk(s) && ActorsOk(s) && Holds(s, a) && s.log <= t.log
    requires t.actors - {a} == s.actors - {a}
    requires a in t.actors ==> t.lock == Some(a) && PcOk(t, t.actors[a])
    requires FilesOk(t.nodes, t.log) && Chain(t.log) && NamesOk(t.names, t.log)
    ensures Inv(t)
  {
    hide PcOk, FilesOk, Chain, NamesOk;
    forall b | b in t.actors && b != a ensures b in s.actors && t.actors[b] == s.actors[b] {
      assert b in t.actors - {a};
    }
    forall b | b in t.actors ensures PcOk(t, t.actors[b]) {
      if b != a {
        ReaderKeeps(s, t, t.actors[b]);
      }
    }
  }

  lemma LeaveInv(s: State, a: Actor)
    requires Inv(s) && At(s, a)
    ensures Inv(Leave(s, a))
  {
    hide FilesOk, Chain, NamesOk;
    var t := Leave(s, a);
    forall b | b in t.actors ensures PcOk(t, t.actors[b]) {
      assert PcOk(s, s.actors[b]);
    }
  }

  /** Files that are not committed may change freely. */
  lemma NodeChanges(nodes: map<File, Node>, log: seq<Commit>, f: File, node: Node)
    requires FilesOk(nodes, log) && Uncommitted(log, f)
    ensures FilesOk(nodes[f := node], log)
  {
    forall k | 0 <= k < |log| ensures FileOk(nodes[f := node], log[k]) {
      assert FileOk(nodes, log[k]);
    }
  }

  lemma NewFileIsUncommitted(nodes: map<File, Node>, log: seq<Commit>, f: File)
    requires FilesOk(nodes, log) && f !in nodes
    ensures Uncommitted(log, f)
  {
    forall k | 0 <= k < |log| ensures log[k].file != Some(f) {
      assert FileOk(nodes, log[k]);
    }
  }

  lemma NamesExtend(names: seq<Option<File>>, log: seq<Commit>, c: Commit)
    requires NamesOk(names, log)
    ensures NamesOk(names + [c.file], log + [c])
  {
    var more := names + [c.file];
    forall i | 0 <= i < |more| ensures more[i] == (log + [c])[|log| + 1 - |more| + i].file {
      if i < |names| {
        assert names[i] == log[|log| - |names| + i].file;
      }
    }
  }

  lemma FilesExtend(nodes: map<File, Node>, log: seq<Commit>, c: Commit)
    requires FilesOk(nodes, log) && FileOk(nodes, c)
    ensures FilesOk(nodes, log + [c])
  {
    forall k | 0 <= k < |log + [c]| ensures FileOk(nodes, (log + [c])[k]) {
      assert k < |log| ==> FileOk(nodes, log[k]);
    }
  }

  lemma ChainExtends(log: seq<Commit>, c: Commit)
    requires Chain(log)
    requires c.origin.Written? ==> TicketOk(log, c.origin.ticket) && c.contents == Some(c.origin.ticket.bytes)
    ensures Chain(log + [c])
  {
    hide TicketOk;
    var more := log + [c];
    forall k | 0 <= k < |more| ensures CommitOk(more, k) {
      if k < |log| {
        assert CommitOk(log, k);
        assert more[..k] == log[..k];
      } else {
        assert more[..k] == log;
      }
    }
  }

  lemma ChainPrefix(log: seq<Commit>, n: nat)
    requires Chain(log) && n <= |log|
    ensures Chain(log[..n])
  {
    hide TicketOk;
    forall k | 0 <= k < n ensures CommitOk(log[..n], k) {
      assert CommitOk(log, k);
      assert log[..n][..k] == log[..k];
    }
  }

  // ------------------------------------------------------------- every event

  lemma AcquireInv(s: State, a: Actor, job: Job)
    requires Inv(s) && Enabled(s, Acquire(a, job))
    ensures Inv(Apply(s, Acquire(a, job)))
  {
    hide FilesOk, Chain, NamesOk;
    var t := Apply(s, Acquire(a, job));
    forall b | b in t.actors && b != a ensures PcOk(t, t.actors[b]) {
      assert PcOk(s, s.actors[b]);
    }
  }

  lemma TicketNow(s: State, t: Ticket)
    requires FilesOk(s.nodes, s.log) && NamesOk(s.names, s.log)
    requires t.previous == Live(s) && t.based == |s.log| && |t.bytes| <= LIMIT
    requires t.job.Update? ==> t.job.change(t.previous) == Some(t.bytes)
    ensures TicketOk(s.log, t)
  {
    LiveIsLast(s);
  }

  lemma ReadInv(s: State, a: Actor)
    requires Inv(s) && Enabled(s, Read(a))
    ensures Inv(Apply(s, Read(a)))
  {
    hide FilesOk, Chain, NamesOk, TicketOk, ContentsOf;
    var t := Apply(s, Read(a));
    LiveIsLast(s);
    if a !in t.actors {
      LeaveInv(s, a);
    } else {
      if t.actors[a].Discarding? {
        TicketNow(s, t.actors[a].ticket);
      }
      HolderStepInv(s, t, a);
    }
  }

  lemma PutInv(s: State, a: Actor, bytes: bytes)
    requires Inv(s) && Enabled(s, Put(a, bytes))
    ensures Inv(Apply(s, Put(a, bytes)))
  {
    hide FilesOk, Chain, NamesOk, TicketOk, ContentsOf;
    var t := Apply(s, Put(a, bytes));
    if a !in t.actors {
      LeaveInv(s, a);
    } else {
      TicketNow(s, t.actors[a].ticket);
      HolderStepInv(s, t, a);
    }
  }

  lemma DiscardInv(s: State, a: Actor)
    requires Inv(s) && Enabled(s, Discard(a))
    ensures Inv(Apply(s, Discard(a)))
  {
    hide FilesOk, Chain, NamesOk, TicketOk;
    assert PcOk(s, s.actors[a]);
    HolderStepInv(s, Apply(s, Discard(a)), a);
  }

  lemma CreateInv(s: State, a: Actor, f: File)
    requires Inv(s) && Enabled(s, Create(a, f))
    ensures Inv(Apply(s, Create(a, f)))
  {
    hide FilesOk, Chain, NamesOk, TicketOk;
    assert PcOk(s, s.actors[a]);
    if s.pending.Some? {
      LeaveInv(s, a);
    } else {
      NewFileIsUncommitted(s.nodes, s.log, f);
      NodeChanges(s.nodes, s.log, f, Node([], false));
      HolderStepInv(s, Apply(s, Create(a, f)), a);
    }
  }

  lemma FillInv(s: State, a: Actor, n: nat)
    requires Inv(s) && Enabled(s, Fill(a, n))
    ensures Inv(Apply(s, Fill(a, n)))
  {
    hide FilesOk, Chain, NamesOk, TicketOk;
    var pc := s.actors[a];
    assert PcOk(s, pc);
    NodeChanges(s.nodes, s.log, pc.file, Node(pc.ticket.bytes[..n], false));
    HolderStepInv(s, Apply(s, Fill(a, n)), a);
  }

  lemma SyncFileInv(s: State, a: Actor)
    requires Inv(s) && Enabled(s, SyncFile(a))
    ensures Inv(Apply(s, SyncFile(a)))
  {
    hide FilesOk, Chain, NamesOk, TicketOk;
    var pc := s.actors[a];
    assert PcOk(s, pc);
    NodeChanges(s.nodes, s.log, pc.file, Node(pc.ticket.bytes, true));
    HolderStepInv(s, Apply(s, SyncFile(a)), a);
  }

  lemma CheckInv(s: State, a: Actor)
    requires Inv(s) && Enabled(s, Check(a))
    ensures Inv(Apply(s, Check(a)))
  {
    hide FilesOk, Chain, NamesOk, ContentsOf, Uncommitted;
    var t := Apply(s, Check(a));
    assert PcOk(s, s.actors[a]);
    if a !in t.actors {
      LeaveInv(s, a);
    } else {
      if s.actors[a].ticket.job.Hold? {
        TicketNow(s, t.actors[a].ticket);
      }
      HolderStepInv(s, t, a);
    }
  }

  lemma RenameInv(s: State, a: Actor)
    requires Inv(s) && Enabled(s, Rename(a))
    ensures Inv(Apply(s, Rename(a)))
  {
    hide FilesOk, Chain, NamesOk, TicketOk;
    var pc := s.actors[a];
    assert PcOk(s, pc);
    var c := Commit(s.pending, ContentsOf(s.nodes, s.pending), Written(pc.ticket));
    FilesExtend(s.nodes, s.log, c);
    ChainExtends(s.log, c);
    NamesExtend(s.names, s.log, c);
    HolderStepInv(s, Apply(s, Rename(a)), a);
  }

  lemma SyncDirectoryInv(s: State, a: Actor)
    requires Inv(s) && Enabled(s, SyncDirectory(a))
    ensures Inv(Apply(s, SyncDirectory(a)))
  {
    hide FilesOk, Chain, OwnCommit;
    assert PcOk(s, s.actors[a]);
    assert s.names[|s.names| - 1] == s.log[|s.log| - 1].file;
    assert OwnCommit(s.log, s.actors[a].ticket, s.actors[a].index) ==> s.actors[a].index < |s.log| by {
      OwnCommitInside(s.log, s.actors[a].ticket, s.actors[a].index);
    }
    HolderStepInv(s, Apply(s, SyncDirectory(a)), a);
  }

  lemma OwnCommitInside(log: seq<Commit>, t: Ticket, index: nat)
    ensures OwnCommit(log, t, index) ==> index < |log|
  {
  }

  /** A step that adds or moves one reader. */
  lemma ReaderStepInv(s: State, a: Actor, pc: Pc)
    requires Inv(s) && (a in s.actors ==> Reader(s.actors[a])) && Reader(pc) && PcOk(s, pc)
    ensures Inv(Goto(s, a, pc))
  {
    hide FilesOk, Chain, NamesOk;
    var t := Goto(s, a, pc);
    ReaderKeeps(s, t, pc);
    forall b | b in t.actors && b != a ensures PcOk(t, t.actors[b]) {
      assert PcOk(s, s.actors[b]);
    }
  }

  lemma OpenInv(s: State, a: Actor)
    requires Inv(s) && Enabled(s, Open(a))
    ensures Inv(Apply(s, Open(a)))
  {
    var last := Last(s.log);
    assert s.names[|s.names| - 1] == last.file;
    assert Committed(s.log, last.file, last.contents);
    ReaderStepInv(s, a, Opened(Last(s.names)));
  }

  lemma LookInv(s: State, a: Actor)
    requires Inv(s) && Enabled(s, Look(a))
    ensures Inv(Apply(s, Look(a)))
  {
    var entry := s.actors[a].entry;
    assert PcOk(s, s.actors[a]);
    var contents :| Committed(s.log, entry, contents);
    var k :| 0 <= k < |s.log| && s.log[k].file == entry && s.log[k].contents == contents;
    assert FileOk(s.nodes, s.log[k]);
    ReaderStepInv(s, a, Seen(ContentsOf(s.nodes, entry)));
  }

  /** An outside edit leaves every position valid: it only adds an edit to the history. */
  lemma EditKeepsPc(s: State, f: Option<File>, bytes: bytes, pc: Pc)
    requires Inv(s) && Enabled(s, Edit(f, bytes)) && PcOk(s, pc)
    ensures PcOk(Edited(s, f, bytes), pc)
  {
    hide FilesOk, Chain, NamesOk;
    if Reader(pc) {
      ReaderKeeps(s, Edited(s, f, bytes), pc);
    }
  }

  lemma EditInv(s: State, f: Option<File>, bytes: bytes)
    requires Inv(s) && Enabled(s, Edit(f, bytes))
    ensures Inv(Apply(s, Edit(f, bytes)))
  {
    hide FilesOk, Chain, NamesOk, PcOk, Uncommitted;
    var t := Edited(s, f, bytes);
    var c := Commit(f, if f.Some? then Some(bytes) else None, Outside);
    if f.Some? {
      NewFileIsUncommitted(s.nodes, s.log, f.value);
      NodeChanges(s.nodes, s.log, f.value, Node(bytes, true));
    }
    FilesExtend(t.nodes, s.log, c);
    ChainExtends(s.log, c);
    NamesExtend(s.names, s.log, c);
    forall b | b in t.actors ensures PcOk(t, t.actors[b]) {
      EditKeepsPc(s, f, bytes, t.actors[b]);
    }
  }

  lemma PowerLossInv(s: State, k: nat, pending: Option<File>, spoiled: map<File, bytes>)
    requires Inv(s) && Enabled(s, PowerLoss(k, pending, spoiled))
    ensures Inv(Apply(s, PowerLoss(k, pending, spoiled)))
  {
    hide Chain;
    var t := Survived(s, k, pending, spoiled);
    var n := |s.log| - |s.names| + k + 1;
    assert t.log == s.log[..n];
    ChainPrefix(s.log, n);
    assert s.names[k] == s.log[n - 1].file;
    forall i | 0 <= i < n ensures FileOk(t.nodes, t.log[i]) {
      assert FileOk(s.nodes, s.log[i]);
    }
  }

  lemma StepInv(s: State, e: Event)
    requires Inv(s) && Enabled(s, e)
    ensures Inv(Apply(s, e))
  {
    hide Inv;
    match e {
      case Acquire(a, job) => AcquireInv(s, a, job);
      case Read(a) => ReadInv(s, a);
      case Put(a, bytes) => PutInv(s, a, bytes);
      case Discard(a) => DiscardInv(s, a);
      case Create(a, f) => CreateInv(s, a, f);
      case Fill(a, n) => FillInv(s, a, n);
      case SyncFile(a) => SyncFileInv(s, a);
      case Check(a) => CheckInv(s, a);
      case Rename(a) => RenameInv(s, a);
      case SyncDirectory(a) => SyncDirectoryInv(s, a);
      case Finish(a) => LeaveInv(s, a);
      case Fail(a) => LeaveInv(s, a);
      case Open(a) => OpenInv(s, a);
      case Look(a) => LookInv(s, a);
      case Edit(f, bytes) => EditInv(s, f, bytes);
      case PowerLoss(k, pending, spoiled) => PowerLossInv(s, k, pending, spoiled);
    }
  }

  lemma RunStepInv(states: seq<State>, events: seq<Event>, i: nat)
    requires Run(states, events) && i < |events| && Inv(states[i])
    ensures Inv(states[i + 1])
  {
    hide Inv, Apply, Enabled;
    StepInv(states[i], events[i]);
  }

  lemma {:induction false} RunInv(states: seq<State>, events: seq<Event>, i: nat)
    requires Run(states, events) && i < |states|
    ensures Inv(states[i])
  {
    hide Inv, Apply, Enabled, Init;
    if i == 0 {
      InitInv(states[0]);
    } else {
      RunInv(states, events, i - 1);
      RunStepInv(states, events, i - 1);
    }
  }

  // ---------------------------------------------------------------- theorems

  /**
   Every committed value of a writer is its change applied to a committed value
   it read, and nothing but outside edits came in between.
   */
  lemma CommitsFormChain(states: seq<State>, events: seq<Event>, i: nat, k: nat)
    requires Run(states, events) && i < |states| && k < |states[i].log| && states[i].log[k].origin.Written?
    ensures var log, t := states[i].log, states[i].log[k].origin.ticket;
            && log[k].contents == Some(t.bytes) && |t.bytes| <= LIMIT
            && 1 <= t.based <= k && t.previous == log[t.based - 1].contents
            && (t.job.Update? ==> t.job.change(t.previous) == Some(t.bytes))
            && forall j :: t.based <= j < k ==> log[j].origin.Outside?
  {
    RunInv(states, events, i);
    var log := states[i].log;
    assert CommitOk(log, k);
    assert forall j :: 0 <= j < k ==> log[..k][j] == log[j];
  }

  ghost predicate NoEdits(events: seq<Event>, i: nat) {
    forall j :: 0 <= j < i && j < |events| ==> !events[j].Edit?
  }

  lemma StepWrites(s: State, e: Event)
    requires NamesOk(s.names, s.log) && Enabled(s, e) && !e.Edit?
    ensures forall k :: 0 <= k < |Apply(s, e).log| ==>
                          (k < |s.log| && Apply(s, e).log[k] == s.log[k]) || Apply(s, e).log[k].origin.Written?
  {
  }

  lemma {:induction false} OnlyWriters(states: seq<State>, events: seq<Event>, i: nat)
    requires Run(states, events) && i < |states| && NoEdits(events, i)
    ensures forall k :: 1 <= k < |states[i].log| ==> states[i].log[k].origin.Written?
  {
    hide Apply, Enabled, Inv;
    if i > 0 {
      OnlyWriters(states, events, i - 1);
      RunNames(states, events, i - 1);
      StepWrites(states[i - 1], events[i - 1]);
    }
  }

  lemma RunNames(states: seq<State>, events: seq<Event>, i: nat)
    requires Run(states, events) && i < |states|
    ensures NamesOk(states[i].names, states[i].log)
  {
    RunInv(states, events, i);
  }

  /** Among cooperating writers alone, each commit changes exactly the one before it: no update is overwritten unseen. */
  lemma NoUpdateLost(states: seq<State>, events: seq<Event>, i: nat, k: nat)
    requires Run(states, events) && i < |states| && NoEdits(events, i) && 1 <= k < |states[i].log|
    ensures states[i].log[k].origin.Written?
    ensures states[i].log[k].origin.ticket.previous == states[i].log[k - 1].contents
  {
    OnlyWriters(states, events, i);
    CommitsFormChain(states, events, i, k);
  }

  /** A reader without the lock sees a value that was committed, never a torn or temporary one. */
  lemma ReaderSeesCommitted(states: seq<State>, events: seq<Event>, i: nat, a: Actor)
    requires Run(states, events) && i < |states| && a in states[i].actors && states[i].actors[a].Seen?
    ensures exists k :: 0 <= k < |states[i].log| && states[i].log[k].contents == states[i].actors[a].contents
  {
    RunInv(states, events, i);
    assert PcOk(states[i], states[i].actors[a]);
    var file :| Committed(states[i].log, file, states[i].actors[a].contents);
  }

  /** The file always holds the last commit, whatever failed on the way. */
  lemma FileHoldsLastCommit(states: seq<State>, events: seq<Event>, i: nat)
    requires Run(states, events) && i < |states|
    ensures states[i].names != [] && states[i].log != [] && Live(states[i]) == Last(states[i].log).contents
  {
    RunInv(states, events, i);
    LiveIsLast(states[i]);
  }

  lemma StepStaysRenaming(s: State, e: Event, a: Actor)
    requires Enabled(s, e) && a in s.actors && s.actors[a].Renaming?
    ensures a in Apply(s, e).actors && Apply(s, e).actors[a].Renaming? ==> Apply(s, e).actors[a] == s.actors[a]
  {
  }

  lemma {:induction false} StaysRenaming(states: seq<State>, events: seq<Event>, a: Actor, i: nat, j: nat)
    requires Run(states, events) && i <= j < |states|
    requires forall k :: i <= k <= j ==> a in states[k].actors && states[k].actors[a].Renaming?
    ensures states[j].actors[a] == states[i].actors[a]
    decreases j
  {
    hide Apply, Enabled;
    if i < j {
      StaysRenaming(states, events, a, i, j - 1);
      StepStaysRenaming(states[j - 1], events[j - 1], a);
    }
  }

  /**
   The holder of a `LockedStore` replaces what it saw when it locked: its commit
   goes on only if the file still held that at the last check, so an outside edit
   is overwritten unseen only between that check and the rename.
   */
  lemma GuardedCommitReplacesWhatItSaw(states: seq<State>, events: seq<Event>, a: Actor, i: nat, j: nat)
    requires Run(states, events) && i < j < |events| && events[i] == Check(a) && events[j] == Rename(a)
    requires forall k :: i < k <= j ==> a in states[k].actors && states[k].actors[a].Renaming?
    ensures Enabled(states[i], events[i]) && states[i].names != []
    ensures states[i].actors[a].ticket.job.Hold? ==>
              && states[j].actors[a].ticket.previous == states[i].actors[a].ticket.previous == Live(states[i])
              && states[j].actors[a].ticket.based == |states[i].log|
  {
    StaysRenaming(states, events, a, i + 1, j);
    assert Enabled(states[i], events[i]) && states[i + 1] == Apply(states[i], events[i]);
  }

  // ------------------------------------------------------------- durability

  /** The commits that no power loss can undo stay, and never get fewer. */
  ghost predicate Keeps(s: State, t: State) {
    0 <= Durable(s) <= Durable(t) && Durable(s) <= |s.log| && Durable(t) <= |t.log|
    && forall k :: 0 <= k < Durable(s) ==> t.log[k] == s.log[k]
  }

  lemma StepKeeps(s: State, e: Event)
    requires NamesOk(s.names, s.log) && Enabled(s, e)
    ensures Keeps(s, Apply(s, e))
  {
  }

  lemma {:induction false} DurableStays(states: seq<State>, events: seq<Event>, i: nat, j: nat)
    requires Run(states, events) && i <= j < |states|
    ensures Keeps(states[i], states[j])
    decreases j
  {
    hide Apply, Enabled;
    RunNames(states, events, i);
    if i < j {
      DurableStays(states, events, i, j - 1);
      RunNames(states, events, j - 1);
      StepKeeps(states[j - 1], events[j - 1]);
    }
  }

  /** A write that returned Ok is in the history for good, whatever crashes or power losses follow. */
  lemma OkIsNeverLost(states: seq<State>, events: seq<Event>, i: nat, j: nat)
    requires Run(states, events) && i < |events| && events[i].Finish? && i <= j < |states|
    requires Enabled(states[i], events[i]) && states[i].actors[events[i].actor].Recording?
    ensures var pc := states[i].actors[events[i].actor];
            && pc.index < |states[i].log| && pc.index < |states[j].log|
            && states[j].log[pc.index].origin == Written(pc.ticket)
            && states[j].log[pc.index] == states[i].log[pc.index]
  {
    RunInv(states, events, i);
    assert PcOk(states[i], states[i].actors[events[i].actor]);
    DurableStays(states, events, i, j);
  }

  /** A failure after the rename returns Err although the new contents are in place. */
  lemma ErrAfterRenameKeepsWrite(s: State, a: Actor)
    requires Inv(s) && Enabled(s, Rename(a))
    ensures var renamed := Apply(s, Rename(a));
            Enabled(renamed, Fail(a)) && Live(Apply(renamed, Fail(a))) == Some(s.actors[a].ticket.bytes)
  {
    assert PcOk(s, s.actors[a]);
  }

  // ------------------------------------------------- what one caller achieves

  /** A run from any state. */
  ghost predicate Path(states: seq<State>, events: seq<Event>) {
    && |states| == |events| + 1
    && forall i {:trigger events[i]} :: 0 <= i < |events| ==>
         Enabled(states[i], events[i]) && states[i + 1] == Apply(states[i], events[i])
  }

  // -------------------------------- what an update that changed nothing promises

  /** In every continuation, with whatever crashes and power losses, commit `k` stays where it is. */
  ghost predicate StaysForever(s: State, k: nat)
    requires k < |s.log|
  {
    forall states: seq<State>, events: seq<Event> :: Path(states, events) && states[0] == s ==>
      k < |Last(states).log| && Last(states).log[k] == s.log[k]
  }

  lemma {:induction false} PathKeeps(states: seq<State>, events: seq<Event>, j: nat)
    requires Path(states, events) && Inv(states[0]) && j < |states|
    ensures Inv(states[j]) && Keeps(states[0], states[j])
  {
    hide Apply, Enabled, Inv;
    if j == 0 {
      InvNames(states[0]);
    } else {
      PathKeeps(states, events, j - 1);
      InvNames(states[j - 1]);
      StepInv(states[j - 1], events[j - 1]);
      StepKeeps(states[j - 1], events[j - 1]);
    }
  }

  lemma InvNames(s: State)
    requires Inv(s)
    ensures NamesOk(s.names, s.log)
  {
  }

  /** The power loss that falls back to the entry last synced. */
  lemma Relapse(s: State)
    requires NamesOk(s.names, s.log)
    ensures var loss := PowerLoss(0, None, map[]);
            Enabled(s, loss) && |Apply(s, loss).log| == Durable(s) && Path([s, Apply(s, loss)], [loss])
  {
  }

  /** The commits that stay in every continuation are exactly the durable ones. */
  lemma StaysForeverIff(s: State, k: nat)
    requires Inv(s) && k < |s.log|
    ensures StaysForever(s, k) <==> k < Durable(s)
  {
    hide Apply, Enabled, Inv;
    InvNames(s);
    if k < Durable(s) {
      forall states: seq<State>, events: seq<Event> | Path(states, events) && states[0] == s
        ensures k < |Last(states).log| && Last(states).log[k] == s.log[k]
      {
        PathKeeps(states, events, |events|);
      }
    } else {
      Relapse(s);
      var states := [s, Apply(s, PowerLoss(0, None, map[]))];
      assert Last(states) == states[1];
      assert states[0] == s;
    }
  }

  /** A directory sync, or a power loss and what it left, came after commit `k` was made and before `i`. */
  ghost predicate SettledBefore(states: seq<State>, events: seq<Event>, i: nat, k: nat)
    requires |states| == |events| + 1 && i < |states|
  {
    exists h :: 0 <= h < i && (events[h].SyncDirectory? || events[h].PowerLoss?) && k < |states[h + 1].log|
  }

  lemma StepSettles(s: State, e: Event, k: nat)
    requires NamesOk(s.names, s.log) && Enabled(s, e)
    ensures if e.SyncDirectory? || e.PowerLoss? then Durable(Apply(s, e)) == |Apply(s, e).log|
            else Durable(Apply(s, e)) == Durable(s)
  {
  }

  /** What is durable, told by the events of the run alone. */
  lemma {:induction false} DurableIff(states: seq<State>, events: seq<Event>, i: nat, k: nat)
    requires Run(states, events) && i < |states| && k < |states[i].log|
    ensures k < Durable(states[i]) <==> k == 0 || SettledBefore(states, events, i, k)
  {
    hide Apply, Enabled, Init;
    if k < Durable(states[i]) && k > 0 {
      DurableWasSettled(states, events, i, k);
    }
    RunNames(states, events, i);
    if h: nat :| h < i && (events[h].SyncDirectory? || events[h].PowerLoss?) && k < |states[h + 1].log| {
      RunNames(states, events, h);
      StepSettles(states[h], events[h], k);
      DurableStays(states, events, h + 1, i);
    }
  }

  lemma {:induction false} DurableWasSettled(states: seq<State>, events: seq<Event>, i: nat, k: nat)
    requires Run(states, events) && i < |states| && 0 < k < Durable(states[i])
    ensures SettledBefore(states, events, i, k)
  {
    hide Apply, Enabled;
    RunNames(states, events, i);
    if i > 0 {
      RunNames(states, events, i - 1);
      StepSettles(states[i - 1], events[i - 1], k);
      if !events[i - 1].SyncDirectory? && !events[i - 1].PowerLoss? {
        DurableWasSettled(states, events, i - 1, k);
      }
    }
  }

  /**
   An update that finds nothing to change returns Ok without syncing anything. The
   commit it found then stands, whatever follows, if and only if it is the first one
   or the directory was synced (or power was lost) since it was made.
   */
  lemma UnchangedStandsIff(states: seq<State>, events: seq<Event>, i: nat, a: Actor)
    requires Run(states, events) && i < |events| && events[i] == Finish(a)
    requires a in states[i].actors && states[i].actors[a].Unchanged?
    ensures var pc := states[i].actors[a];
            && 1 <= pc.based <= |states[i + 1].log| && states[i + 1].log[pc.based - 1].contents == pc.previous
            && (StaysForever(states[i + 1], pc.based - 1) <==> pc.based - 1 < Durable(states[i]))
            && (StaysForever(states[i + 1], pc.based - 1) <==>
                  pc.based == 1 || SettledBefore(states, events, i, pc.based - 1))
  {
    hide StaysForever, SettledBefore;
    var k := UnchangedFound(states, events, i, a);
    RunInv(states, events, i + 1);
    StaysForeverIff(states[i + 1], k);
    DurableIff(states, events, i, k);
  }

  lemma UnchangedFound(states: seq<State>, events: seq<Event>, i: nat, a: Actor) returns (k: nat)
    requires Run(states, events) && i < |events| && events[i] == Finish(a)
    requires a in states[i].actors && states[i].actors[a].Unchanged?
    ensures var pc := states[i].actors[a];
            k == pc.based - 1 && k < |states[i].log| && states[i].log[k].contents == pc.previous
    ensures states[i + 1].log == states[i].log && Durable(states[i + 1]) == Durable(states[i])
  {
    RunInv(states, events, i);
    assert PcOk(states[i], states[i].actors[a]);
    k := states[i].actors[a].based - 1;
  }

  /** What a caller can go by: if the write that made these contents returned Ok before, they stand. */
  lemma UnchangedAfterOkStands(states: seq<State>, events: seq<Event>, h: nat, i: nat, a: Actor)
    requires Run(states, events) && h < i < |events| && events[h].Finish? && events[i] == Finish(a)
    requires events[h].actor in states[h].actors && states[h].actors[events[h].actor].Recording?
    requires a in states[i].actors && states[i].actors[a].Unchanged?
    requires states[i].actors[a].based == states[h].actors[events[h].actor].index + 1
    ensures states[i].actors[a].based <= |states[i + 1].log|
    ensures StaysForever(states[i + 1], states[i].actors[a].based - 1)
  {
    hide StaysForever, SettledBefore, Apply;
    RunInv(states, events, h);
    assert PcOk(states[h], states[h].actors[events[h].actor]);
    DurableStays(states, events, h, i);
    UnchangedStandsIff(states, events, i, a);
  }

  /** The events of an update that nothing disturbs. */
  function UpdateEvents(a: Actor, f: File, change: Contents -> Contents, size: nat): seq<Event> {
    [Acquire(a, Update(change)), Read(a), Discard(a), Create(a, f), Fill(a, size), SyncFile(a), Check(a), Rename(a),
     SyncDirectory(a), Finish(a)]
  }

  /** `a` holds the lock at `pc`, with the rest as in `s` but for the temporary file. */
  ghost function Stage(s: State, a: Actor, pc: Pc, pending: Option<File>, nodes: map<File, Node>): State {
    s.(actors := s.actors[a := pc], lock := Some(a), pending := pending, nodes := nodes)
  }

  lemma Replaced(actors: map<Actor, Pc>, a: Actor, pc: Pc, next: Pc)
    ensures actors[a := pc][a := next] == actors[a := next]
  {
  }

  lemma DiscardStep(s: State, a: Actor, f: File, t: Ticket)
    requires s.names != [] && a !in s.actors
    ensures var start := Stage(s, a, Discarding(t), s.pending, s.nodes);
            Enabled(start, Discard(a)) && Apply(start, Discard(a)) == Stage(s, a, Creating(t), None, s.nodes)
  {
    Replaced(s.actors, a, Discarding(t), Creating(t));
  }

  lemma CreateStep(s: State, a: Actor, f: File, t: Ticket)
    requires s.names != [] && a !in s.actors && f !in s.nodes
    ensures var start := Stage(s, a, Creating(t), None, s.nodes);
            Enabled(start, Create(a, f)) && Apply(start, Create(a, f)) == 
              Stage(s, a, Filling(t, f), Some(f), s.nodes[f := Node([], false)])
  {
    Replaced(s.actors, a, Creating(t), Filling(t, f));
  }

  lemma FillStep(s: State, a: Actor, f: File, t: Ticket)
    requires s.names != [] && a !in s.actors
    ensures var start := Stage(s, a, Filling(t, f), Some(f), s.nodes[f := Node([], false)]);
            Enabled(start, Fill(a, |t.bytes|)) && Apply(start, Fill(a, |t.bytes|)) == 
              Stage(s, a, Filling(t, f), Some(f), s.nodes[f := Node(t.bytes, false)])
  {
    assert t.bytes[..|t.bytes|] == t.bytes;
    assert s.nodes[f := Node([], false)][f := Node(t.bytes, false)] == s.nodes[f := Node(t.bytes, false)];
  }

  lemma SyncFileStep(s: State, a: Actor, f: File, t: Ticket)
    requires s.names != [] && a !in s.actors
    ensures var start := Stage(s, a, Filling(t, f), Some(f), s.nodes[f := Node(t.bytes, false)]);
            Enabled(start, SyncFile(a)) && Apply(start, SyncFile(a)) == 
              Stage(s, a, Checking(t, f), Some(f), s.nodes[f := Node(t.bytes, true)])
  {
    Replaced(s.actors, a, Filling(t, f), Checking(t, f));
    assert s.nodes[f := Node(t.bytes, false)][f := Node(t.bytes, true)] == s.nodes[f := Node(t.bytes, true)];
  }

  lemma CheckStep(s: State, a: Actor, f: File, t: Ticket, nodes: map<File, Node>)
    requires s.names != [] && a !in s.actors && t.job.Update?
    ensures var start := Stage(s, a, Checking(t, f), Some(f), nodes);
            Enabled(start, Check(a)) && Apply(start, Check(a)) == 
              Stage(s, a, Renaming(t, f), Some(f), nodes)
  {
    Replaced(s.actors, a, Checking(t, f), Renaming(t, f));
  }

  /** The new contents under the name, as the commit of `t`. */
  ghost function Moved(s: State, t: Ticket, f: File, names: seq<Option<File>>): State {
    s.(names := names, log := s.log + [Commit(Some(f), Some(t.bytes), Written(t))])
  }

  lemma RenameStep(s: State, a: Actor, f: File, t: Ticket, nodes: map<File, Node>)
    requires s.names != [] && a !in s.actors && f in nodes && nodes[f].content == t.bytes
    ensures var start := Stage(s, a, Renaming(t, f), Some(f), nodes);
            Enabled(start, Rename(a)) && Apply(start, Rename(a)) ==
              Moved(Stage(s, a, Syncing(t, |s.log|), None, nodes), t, f, s.names + [Some(f)])
  {
    Replaced(s.actors, a, Renaming(t, f), Syncing(t, |s.log|));
  }

  lemma SyncDirectoryStep(s: State, a: Actor, f: File, t: Ticket, nodes: map<File, Node>)
    requires s.names != [] && a !in s.actors
    ensures var start := Moved(Stage(s, a, Syncing(t, |s.log|), None, nodes), t, f, s.names + [Some(f)]);
            Enabled(start, SyncDirectory(a)) && Apply(start, SyncDirectory(a)) ==
              Moved(Stage(s, a, Recording(t, |s.log|), None, nodes), t, f, [Some(f)])
  {
    Replaced(s.actors, a, Syncing(t, |s.log|), Recording(t, |s.log|));
  }

  lemma FinishStep(s: State, a: Actor, f: File, t: Ticket, nodes: map<File, Node>)
    requires a !in s.actors
    ensures var start := Moved(Stage(s, a, Recording(t, |s.log|), None, nodes), t, f, [Some(f)]);
            Enabled(start, Finish(a)) && Apply(start, Finish(a)) ==
              Moved(s.(nodes := nodes, pending := None, lock := None), t, f, [Some(f)])
  {
    assert s.actors[a := Recording(t, |s.log|)] - {a} == s.actors;
  }

  /** Whatever earlier writers left behind, an undisturbed update goes through, and durably. */
  lemma UpdateCompletes(s: State, a: Actor, f: File, change: Contents -> Contents) returns (states: seq<State>)
    requires Inv(s) && s.lock.None? && a !in s.actors && f !in s.nodes
    requires s.names != [] && !TooLong(Live(s))
    requires change(Live(s)).Some? && !TooLong(change(Live(s))) && change(Live(s)) != Live(s)
    ensures Path(states, UpdateEvents(a, f, change, |change(Live(s)).value|)) && states[0] == s
    ensures var t := states[10];
            && t.names != [] && Live(t) == change(Live(s)) && Durable(t) == |t.log|
            && t.actors == s.actors && t.lock.None?
  {
    hide Inv, Enabled, Apply, Stage, Moved;
    var bytes := change(Live(s)).value;
    var t := Ticket(Update(change), Live(s), bytes, |s.log|);
    var nodes := s.nodes[f := Node(bytes, true)];
    var done := Moved(s.(nodes := nodes, pending := None, lock := None), t, f, [Some(f)]);
    states := [
      s,
      Stage(s, a, Reading(Update(change)), s.pending, s.nodes),
      Stage(s, a, Discarding(t), s.pending, s.nodes),
      Stage(s, a, Creating(t), None, s.nodes),
      Stage(s, a, Filling(t, f), Some(f), s.nodes[f := Node([], false)]),
      Stage(s, a, Filling(t, f), Some(f), s.nodes[f := Node(bytes, false)]),
      Stage(s, a, Checking(t, f), Some(f), nodes),
      Stage(s, a, Renaming(t, f), Some(f), nodes),
      Moved(Stage(s, a, Syncing(t, |s.log|), None, nodes), t, f, s.names + [Some(f)]),
      Moved(Stage(s, a, Recording(t, |s.log|), None, nodes), t, f, [Some(f)]),
      done];
    StartSteps(s, a, change);
    DiscardStep(s, a, f, t);
    CreateStep(s, a, f, t);
    FillStep(s, a, f, t);
    SyncFileStep(s, a, f, t);
    CheckStep(s, a, f, t, nodes);
    RenameStep(s, a, f, t, nodes);
    SyncDirectoryStep(s, a, f, t, nodes);
    FinishStep(s, a, f, t, nodes);
    DoneState(s, f, t, nodes);
  }

  /**
   An update that found nothing to change returned Ok, and a power loss undoes
   what it relied on: the writer before it failed after its rename, unsynced.
   */
  lemma UnchangedOkCanBeLost() returns (states: seq<State>, events: seq<Event>)
    ensures Run(states, events) && |events| == 13
    ensures events[11] == Finish(1) && 1 in states[11].actors && states[11].actors[1] == Unchanged(Some([7]), 2)
    ensures states[11].names != [] && Live(states[11]) == Some([7])
    ensures events[12].PowerLoss? && states[13].names != [] && Live(states[13]) == None
  {
    hide Enabled, Apply, Stage;
    var change := (_: Contents) => Some([7]);
    var s := State(map[], [None], None, None, map[], [Commit(None, None, Outside)]);
    var t := Ticket(Update(change), None, [7], 1);
    var nodes := map[0 := Node([7], true)];
    StartSteps(s, 0, change);
    DiscardStep(s, 0, 0, t);
    CreateStep(s, 0, 0, t);
    FillStep(s, 0, 0, t);
    SyncFileStep(s, 0, 0, t);
    assert s.nodes[0 := Node([7], true)] == nodes;
    CheckStep(s, 0, 0, t, nodes);
    RenameStep(s, 0, 0, t, nodes);
    RenamedState(s, t, nodes);
    FailAfterRename(t);
    NothingToChange(t, change);
    RenameUndone(t);
    var failed := HalfDone(t, map[], None);
    states := [
      s,
      Stage(s, 0, Reading(Update(change)), None, map[]),
      Stage(s, 0, Discarding(t), None, map[]),
      Stage(s, 0, Creating(t), None, map[]),
      Stage(s, 0, Filling(t, 0), Some(0), s.nodes[0 := Node([], false)]),
      Stage(s, 0, Filling(t, 0), Some(0), s.nodes[0 := Node([7], false)]),
      Stage(s, 0, Checking(t, 0), Some(0), nodes),
      Stage(s, 0, Renaming(t, 0), Some(0), nodes),
      HalfDone(t, map[0 := Syncing(t, 1)], Some(0)),
      failed,
      HalfDone(t, map[1 := Reading(Update(change))], Some(1)),
      HalfDone(t, map[1 := Unchanged(Some([7]), 2)], Some(1)),
      failed,
      State(nodes, [None], None, None, map[], s.log)];
    events := [
      Acquire(0, Update(change)), Read(0), Discard(0), Create(0, 0), Fill(0, 1), SyncFile(0), Check(0), Rename(0), Fail(0),
      Acquire(1, Update(change)), Read(1), Finish(1), PowerLoss(0, None, map[])];
  }

  lemma RenamedState(s: State, t: Ticket, nodes: map<File, Node>)
    requires s == State(map[], [None], None, None, map[], [Commit(None, None, Outside)])
    requires nodes == map[0 := Node([7], true)] && t.bytes == [7]
    ensures Moved(Stage(s, 0, Syncing(t, |s.log|), None, nodes), t, 0, s.names + [Some(0)]) ==
            HalfDone(t, map[0 := Syncing(t, 1)], Some(0))
  {
  }

  /** An empty store after a writer of [7] failed between its rename and its directory sync. */
  ghost function HalfDone(t: Ticket, actors: map<Actor, Pc>, lock: Option<Actor>): State {
    State(map[0 := Node([7], true)], [None, Some(0)], None, lock, actors,
          [Commit(None, None, Outside), Commit(Some(0), Some([7]), Written(t))])
  }

  lemma FailAfterRename(t: Ticket)
    ensures var renamed := HalfDone(t, map[0 := Syncing(t, 1)], Some(0));
            Enabled(renamed, Fail(0)) && Apply(renamed, Fail(0)) == HalfDone(t, map[], None)
  {
    assert map[0 := Syncing(t, 1)] - {0} == map[];
  }

  lemma NothingToChange(t: Ticket, change: Contents -> Contents)
    requires change(Some([7])) == Some([7])
    ensures var failed := HalfDone(t, map[], None);
            var reading := HalfDone(t, map[1 := Reading(Update(change))], Some(1));
            var same := HalfDone(t, map[1 := Unchanged(Some([7]), 2)], Some(1));
            && Enabled(failed, Acquire(1, Update(change))) && Apply(failed, Acquire(1, Update(change))) == reading
            && Enabled(reading, Read(1)) && Apply(reading, Read(1)) == same
            && Enabled(same, Finish(1)) && Apply(same, Finish(1)) == failed
            && Live(same) == Some([7])
  {
    var pc := Reading(Update(change));
    assert map[1 := pc][1 := Unchanged(Some([7]), 2)] == map[1 := Unchanged(Some([7]), 2)];
    assert map[1 := Unchanged(Some([7]), 2)] - {1} == map[];
  }

  lemma RenameUndone(t: Ticket)
    ensures var failed := HalfDone(t, map[], None);
            var lost := State(failed.nodes, [None], None, None, map[], [Commit(None, None, Outside)]);
            && Enabled(failed, PowerLoss(0, None, map[])) && Apply(failed, PowerLoss(0, None, map[])) == lost
            && Live(lost) == None
  {
    var failed := HalfDone(t, map[], None);
    assert Apply(failed, PowerLoss(0, None, map[])).nodes == failed.nodes;
  }

  lemma DoneState(s: State, f: File, t: Ticket, nodes: map<File, Node>)
    requires s.lock.None? && f in nodes && nodes[f].content == t.bytes
    ensures var done := Moved(s.(nodes := nodes, pending := None, lock := None), t, f, [Some(f)]);
            && done.names != [] && Live(done) == Some(t.bytes) && Durable(done) == |done.log|
            && done.actors == s.actors && done.lock.None?
  {
  }

  lemma StartSteps(s: State, a: Actor, change: Contents -> Contents)
    requires s.names != [] && s.lock.None? && a !in s.actors && !TooLong(Live(s))
    requires change(Live(s)).Some? && !TooLong(change(Live(s))) && change(Live(s)) != Live(s)
    ensures var t := Ticket(Update(change), Live(s), change(Live(s)).value, |s.log|);
            var reading := Stage(s, a, Reading(Update(change)), s.pending, s.nodes);
            && Enabled(s, Acquire(a, Update(change))) && Apply(s, Acquire(a, Update(change))) == reading
            && Enabled(reading, Read(a)) && Apply(reading, Read(a)) == Stage(s, a, Discarding(t), s.pending, s.nodes)
  {
    assert s.actors[a := Reading(Update(change))][a := Discarding(Ticket(Update(change), Live(s), change(Live(s)).value, |s.log|))]
           == s.actors[a := Discarding(Ticket(Update(change), Live(s), change(Live(s)).value, |s.log|))];
  }
}
