/**
 Self-removal and its recovery (src/cleanup/self_state.rs,
 src/cleanup/self_remove.rs, src/cleanup/self_artifacts.rs): the journal
 ownership.json, the ledger artifacts.json, the marker self-removal.json with
 backups of both, and the executable, with a crash possible between any two
 file operations.
 */
module SelfRemoval {
  import opened Common

  type Inode = nat

  /** `provenance` is what the journal proves of the executable; `rest` is everything else in it. */
  datatype Journal = Journal(provenance: Option<nat>, rest: nat)

  const DEFAULT_JOURNAL := Journal(None, 0)

  /** `journal` is the recorded identity of ownership.json; `rest` is everything else in it. */
  datatype Ledger = Ledger(journal: Option<Inode>, rest: nat)

  const DEFAULT_LEDGER := Ledger(None, 0)

  datatype File<T> = File(inode: Inode, value: T)

  /** The marker's backups, and the identity artifacts.json had when they were taken. */
  datatype Marker = Marker(journal: Journal, ledger: Ledger, ledgerInode: Option<Inode>)

  /** The three saves of the marker: at the start, before the last removals, and after a failure. */
  datatype Save = First | Second(failed: bool) | Third

  datatype Pc =
    | Idle
    | Refreshing(save: Save)
    | Marking(save: Save, ledger: Ledger, known: Option<Inode>)
    | RestoringLedger
    | RestoringJournal
    | Recording(inode: Inode, updated: bool)
    | Working(updated: bool)
    | RemovingJournal
    | RemovingLedger
    | RemovingExecutable
    | Finishing

  datatype State = State(
    journal: Option<File<Journal>>,
    ledger: Option<File<Ledger>>,
    marker: Option<Marker>,
    executable: bool,
    pc: Pc,
    used: set<Inode>,
    committed: Journal)        // history: the journal committed last

  datatype Event =
    | Start
    | Refresh(inode: Inode)
    | WriteMarker
    | RestoreLedger(inode: Inode)
    | RestoreJournal(inode: Inode)
    | Record(inode: Inode)
    | RecordFails
    | UpdateJournal(rest: nat, inode: Inode)
    | UpdateLedger(rest: nat, inode: Inode)
    | EndWork(failed: bool)
    | RemoveJournal
    | RemoveLedger
    | RemoveExecutable
    | Finish
    | GiveUp
    | Crash
    | Ordinary(journal: Journal, inode: Inode)
    | OrdinaryRecord(ledger: Ledger, inode: Inode)

  // ---------------------------------------------------------------- reading

  /** `self_state::ownership`. */
  function Ownership(s: State): Journal {
    if s.journal.Some? then s.journal.value.value
    else if s.marker.Some? then s.marker.value.journal
    else DEFAULT_JOURNAL
  }

  /** `self_state::artifacts`. */
  function Artifacts(s: State): Ledger {
    if s.ledger.Some? then s.ledger.value.value
    else if s.marker.Some? then s.marker.value.ledger
    else DEFAULT_LEDGER
  }

  // ------------------------------------------------------------------ steps

  predicate Free(s: State, inode: Inode) {
    inode !in s.used
  }

  predicate Enabled(s: State, e: Event) {
    match e
    case Start => s.pc.Idle? && s.executable
    case Refresh(inode) => s.pc.Refreshing? && Free(s, inode)
    case WriteMarker => s.pc.Marking?
    case RestoreLedger(inode) => s.pc.RestoringLedger? && Free(s, inode)
    case RestoreJournal(inode) => s.pc.RestoringJournal? && Free(s, inode)
    case Record(inode) => s.pc.Recording? && Free(s, inode)
    case RecordFails => s.pc.Recording?
    case UpdateJournal(_, inode) => s.pc.Working? && Free(s, inode)
    case UpdateLedger(_, inode) => s.pc.Working? && s.ledger.Some? && Free(s, inode)
    case EndWork(failed) => s.pc.Working? && (!failed ==> s.pc.updated)
    case RemoveJournal => s.pc.RemovingJournal?
    case RemoveLedger => s.pc.RemovingLedger?
    case RemoveExecutable => s.pc.RemovingExecutable?
    case Finish => s.pc.Finishing?
    case GiveUp => s.pc.RemovingJournal? || s.pc.RemovingLedger? || s.pc.RemovingExecutable? || s.pc.Finishing?
    case Crash => true
    case Ordinary(_, inode) => s.pc.Idle? && s.marker.None? && Free(s, inode)
    case OrdinaryRecord(_, inode) => s.pc.Idle? && s.marker.None? && Free(s, inode)
  }

  function Apply(s: State, e: Event): State
    requires Enabled(s, e)
  {
    match e
    case Start => s.(pc := Refreshing(First))
    case Refresh(inode) => Refreshed(s, inode)
    case WriteMarker => Marked(s)
    case RestoreLedger(inode) => LedgerRestored(s, inode)
    case RestoreJournal(inode) => JournalRestored(s, inode)
    case Record(inode) => Recorded(s, inode)
    case RecordFails => s.(pc := Refreshing(Second(true)))
    case UpdateJournal(rest, inode) =>
      var journal := Ownership(s).(rest := rest);
      Written(s, journal, inode).(pc := Recording(inode, true))
    case UpdateLedger(rest, inode) => LedgerWritten(s, s.ledger.value.value.(rest := rest), inode)
    case EndWork(failed) => s.(pc := Refreshing(Second(failed)))
    case RemoveJournal => JournalRemoved(s)
    case RemoveLedger => LedgerRemoved(s)
    case RemoveExecutable => ExecutableRemoved(s)
    case Finish => s.(marker := None, pc := Idle)
    case GiveUp => s.(pc := Refreshing(Third))
    case Crash => s.(pc := Idle)
    case Ordinary(journal, inode) => Written(s, journal, inode)
    case OrdinaryRecord(ledger, inode) => LedgerWritten(s, ledger, inode)
  }

  /** The journal is committed: a new file under its name. */
  function Written(s: State, journal: Journal, inode: Inode): State {
    s.(journal := Some(File(inode, journal)), used := s.used + {inode}, committed := journal)
  }

  function LedgerWritten(s: State, ledger: Ledger, inode: Inode): State {
    s.(ledger := Some(File(inode, ledger)), used := s.used + {inode})
  }

  /** `refresh_ledger`: the ledger is rewritten unchanged, so that its identity is known. */
  function Refreshed(s: State, inode: Inode): State
    requires s.pc.Refreshing?
  {
    if s.ledger.Some? then
      LedgerWritten(s, s.ledger.value.value, inode).(pc := Marking(s.pc.save, s.ledger.value.value, Some(inode)))
    else
      s.(pc := Marking(s.pc.save, Artifacts(s), if s.marker.Some? then s.marker.value.ledgerInode else None))
  }

  function Marked(s: State): State
    requires s.pc.Marking?
  {
    s.(marker := Some(Marker(Ownership(s), s.pc.ledger, s.pc.known)), pc := AfterSave(s.pc.save))
  }

  function AfterSave(save: Save): Pc {
    match save
    case First => RestoringLedger
    case Second(failed) => if failed then Refreshing(Third) else RemovingJournal
    case Third => Idle
  }

  function LedgerRestored(s: State, inode: Inode): State {
    if s.ledger.Some? then s.(pc := RestoringJournal)
    else LedgerWritten(s, Artifacts(s), inode).(pc := RestoringJournal)
  }

  function JournalRestored(s: State, inode: Inode): State {
    if s.journal.Some? then s.(pc := Working(false))
    else
      s.(journal := Some(File(inode, Ownership(s))), used := s.used + {inode}, pc := Recording(inode, false))
  }

  /** After the rename, the new file's identity goes into the ledger, which is created if missing. */
  function Recorded(s: State, inode: Inode): State
    requires s.pc.Recording?
  {
    var ledger := if s.ledger.Some? then s.ledger.value.value else DEFAULT_LEDGER;
    LedgerWritten(s, ledger.(journal := Some(s.pc.inode)), inode).(pc := Working(s.pc.updated))
  }

  /** The journal goes only with proof of the executable, and only the recorded file goes. */
  function JournalRemoved(s: State): State {
    if Ownership(s).provenance.None? || s.ledger.None? || s.ledger.value.value.journal.None? then s.(pc := Refreshing(Third))
    else if s.journal.Some? && s.ledger.value.value.journal != Some(s.journal.value.inode) then s.(pc := Refreshing(Third))
    else s.(journal := None, pc := RemovingLedger)
  }

  function LedgerRemoved(s: State): State {
    if s.marker.None? || s.marker.value.ledgerInode.None? then s.(pc := Refreshing(Third))
    else if s.ledger.Some? && s.marker.value.ledgerInode != Some(s.ledger.value.inode) then s.(pc := Refreshing(Third))
    else s.(ledger := None, pc := RemovingExecutable)
  }

  function ExecutableRemoved(s: State): State {
    s.(executable := false, pc := Finishing)
  }

  // ------------------------------------------------------------------- runs

  /** Start: nothing under way, no marker. */
  predicate Init(s: State) {
    s.pc.Idle? && s.marker.None? && s.executable && s.committed == Ownership(s)
    && (s.journal.Some? ==> s.journal.value.inode in s.used) && (s.ledger.Some? ==> s.ledger.value.inode in s.used)
  }

  ghost predicate Run(states: seq<State>, events: seq<Event>) {
    && |states| == |events| + 1
    && Init(states[0])
    && forall i {:trigger events[i]} :: 0 <= i < |events| ==>
         Enabled(states[i], events[i]) && states[i + 1] == Apply(states[i], events[i])
  }

  // -------------------------------------------------------------- invariant

  /** Positions that are reached only once the marker is written. */
  predicate NeedsMarker(pc: Pc) {
    match pc
    case Idle => false
    case Refreshing(save) => !save.First?
    case Marking(save, _, _) => !save.First?
    case _ => true
  }

  predicate Inv(s: State) {
    && (s.executable ==> Ownership(s) == s.committed)
    && (NeedsMarker(s.pc) ==> s.marker.Some?)
    && (s.executable && (s.pc.RemovingJournal? || s.pc.RemovingLedger? || s.pc.RemovingExecutable?) ==>
          s.marker.value.journal == s.committed)
    && (s.pc.RemovingLedger? || s.pc.RemovingExecutable? || s.pc.Finishing? ==> s.journal.None?)
    && (s.pc.RemovingLedger? || s.pc.RemovingExecutable? ==> s.committed.provenance.Some?)
    && (s.pc.RemovingExecutable? || s.pc.Finishing? ==> s.ledger.None?)
    && (s.pc.Finishing? ==> !s.executable)
    && (s.executable <== s.pc.Working? || s.pc.Recording? || s.pc.RestoringLedger? || s.pc.RestoringJournal?
                         || s.pc.RemovingJournal? || s.pc.RemovingLedger? || s.pc.RemovingExecutable?)
    && (s.executable <== (s.pc.Refreshing? || s.pc.Marking?) && !s.pc.save.Third?)
  }

  lemma StepInv(s: State, e: Event)
    requires Inv(s) && Enabled(s, e)
    ensures Inv(Apply(s, e))
  {
  }

  lemma {:induction false} RunInv(states: seq<State>, events: seq<Event>, i: nat)
    requires Run(states, events) && i < |states|
    ensures Inv(states[i])
  {
    hide Inv, Apply, Enabled;
    if i == 0 {
      InitInv(states[0]);
    } else {
      RunInv(states, events, i - 1);
      StepInv(states[i - 1], events[i - 1]);
    }
  }

  lemma InitInv(s: State)
    requires Init(s)
    ensures Inv(s)
  {
  }

  // ---------------------------------------------------------------- theorems

  /** As long as the executable is there, what is read as the journal is what was committed last. */
  lemma JournalIsAlwaysRecoverable(states: seq<State>, events: seq<Event>, i: nat)
    requires Run(states, events) && i < |states| && states[i].executable
    ensures Ownership(states[i]) == states[i].committed
  {
    RunInv(states, events, i);
  }

  lemma StepKeepsProvenance(s: State, e: Event)
    requires Inv(s) && Enabled(s, e) && !e.Ordinary?
    ensures Apply(s, e).executable ==> s.executable
    ensures Apply(s, e).executable ==> Ownership(Apply(s, e)).provenance == Ownership(s).provenance
  {
  }

  /** No crash, failure or retry of self-removal loses the proof of where the executable came from. */
  lemma {:induction false} ProvenanceSurvives(states: seq<State>, events: seq<Event>, i: nat, j: nat)
    requires Run(states, events) && i <= j < |states| && states[j].executable
    requires forall k :: i <= k < j ==> !events[k].Ordinary?
    ensures states[i].executable && Ownership(states[j]).provenance == Ownership(states[i]).provenance
    decreases j
  {
    hide Inv, Apply, Enabled, Ownership;
    if i < j {
      RunInv(states, events, j - 1);
      StepKeepsProvenance(states[j - 1], events[j - 1]);
      ProvenanceSurvives(states, events, i, j - 1);
    }
  }

  /**
   The executable is removed only after the journal and the ledger are gone, with
   the marker still holding the last committed journal and its provenance; the
   marker is removed only after the executable.
   */
  lemma ExecutableGoesBeforeMarkerOnly(states: seq<State>, events: seq<Event>, i: nat)
    requires Run(states, events) && i < |events|
    ensures events[i].RemoveExecutable? ==>
              && states[i].journal.None? && states[i].ledger.None? && states[i].marker.Some?
              && states[i].marker.value.journal == states[i].committed && states[i].committed.provenance.Some?
    ensures states[i].marker.Some? && states[i + 1].marker.None? ==> !states[i].executable
  {
    RunInv(states, events, i);
    assert Enabled(states[i], events[i]);
  }

  // ------------------------------------------------------------ what a retry does

  ghost predicate Reaches(s: State, events: seq<Event>, t: State)
    decreases |events|
  {
    if events == [] then s == t else Enabled(s, events[0]) && Reaches(Apply(s, events[0]), events[1..], t)
  }

  lemma {:induction false} ReachesOn(s: State, events: seq<Event>, t: State, more: seq<Event>, u: State)
    requires Reaches(s, events, t) && Reaches(t, more, u)
    ensures Reaches(s, events + more, u)
    decreases |events|
  {
    hide Enabled, Apply;
    if events == [] {
      assert events + more == more;
    } else {
      assert (events + more)[0] == events[0] && (events + more)[1..] == events[1..] + more;
      ReachesOn(Apply(s, events[0]), events[1..], t, more, u);
    }
  }

  lemma ReachesOne(s: State, e: Event)
    requires Enabled(s, e)
    ensures Reaches(s, [e], Apply(s, e))
  {
    assert [e][1..] == [];
  }

  lemma {:induction false} FreeInodes(used: set<Inode>) returns (n: nat)
    ensures forall k :: k in used ==> k < n
  {
    if used == {} {
      n := 0;
    } else {
      var x :| x in used;
      var m := FreeInodes(used - {x});
      n := if m > x then m else x + 1;
      forall k | k in used ensures k < n {
        assert k == x || k in used - {x};
      }
    }
  }

  predicate Below(used: set<Inode>, n: nat) {
    forall k :: k in used ==> k < n
  }

  lemma Saves(s: State, n: nat) returns (t: State)
    requires s.pc.Refreshing? && Below(s.used, n)
    ensures Reaches(s, [Refresh(n), WriteMarker], t) && Below(t.used, n + 1)
    ensures t.pc == AfterSave(s.pc.save) && t.journal == s.journal && t.executable == s.executable && t.committed == s.committed
    ensures t.marker.Some? && t.marker.value.journal == Ownership(s)
    ensures t.marker.value.ledger == Artifacts(s) == Artifacts(t) && Ownership(t) == Ownership(s)
    ensures s.ledger.Some? ==> t.ledger == Some(File(n, s.ledger.value.value)) && t.marker.value.ledgerInode == Some(n)
    ensures s.ledger.None? ==> t.ledger.None?
  {
    var m := Apply(s, Refresh(n));
    t := Apply(m, WriteMarker);
    ReachesOne(s, Refresh(n));
    ReachesOne(m, WriteMarker);
    ReachesOn(s, [Refresh(n)], m, [WriteMarker], t);
    assert [Refresh(n)] + [WriteMarker] == [Refresh(n), WriteMarker];
  }

  /** The first part of a retry: the marker is saved, then `restore` rebuilds what is missing. */
  lemma RestoreRebuilds(s: State, n: nat) returns (events: seq<Event>, t: State)
    requires Inv(s) && s.pc.Idle? && s.executable && Below(s.used, n)
    ensures Reaches(s, events, t) && t.pc == Working(false) && Below(t.used, n + 4)
    ensures t.journal.Some? && t.journal.value.value == s.committed == t.committed
    ensures t.ledger.Some? && t.ledger.value.value.rest == Artifacts(s).rest
    ensures s.journal.None? ==> t.ledger.value.value.journal == Some(t.journal.value.inode)
    ensures t.executable && Inv(t)
  {
    hide Inv;
    var a := Apply(s, Start);
    ReachesOne(s, Start);
    assert Ownership(s) == s.committed by { IdleInv(s); }
    var b := Saves(a, n);
    ReachesOn(s, [Start], a, [Refresh(n), WriteMarker], b);
    var (moves, u) := Rebuilt(b, n + 1);
    RebuiltReaches(b, n + 1);
    ReachesOn(s, [Start] + [Refresh(n), WriteMarker], b, moves, u);
    events, t := [Start] + [Refresh(n), WriteMarker] + moves, u;
    ReachesInv(s, events, t);
  }

  lemma IdleInv(s: State)
    requires Inv(s) && s.executable
    ensures Ownership(s) == s.committed
  {
  }

  lemma {:induction false} ReachesInv(s: State, events: seq<Event>, t: State)
    requires Inv(s) && Reaches(s, events, t)
    ensures Inv(t)
    decreases |events|
  {
    hide Inv, Enabled, Apply;
    if events != [] {
      StepInv(s, events[0]);
      ReachesInv(Apply(s, events[0]), events[1..], t);
    }
  }

  /** The events of `restore`, and where they lead. */
  function Rebuilt(s: State, n: nat): (seq<Event>, State)
    requires s.pc.RestoringLedger? && Below(s.used, n)
  {
    var a := Apply(s, RestoreLedger(n));
    var b := Apply(a, RestoreJournal(n + 1));
    if s.journal.Some? then ([RestoreLedger(n), RestoreJournal(n + 1)], b)
    else ([RestoreLedger(n), RestoreJournal(n + 1), Record(n + 2)], Apply(b, Record(n + 2)))
  }

  lemma RebuiltReaches(s: State, n: nat)
    requires s.pc.RestoringLedger? && Below(s.used, n)
    ensures var (events, t) := Rebuilt(s, n);
            && Reaches(s, events, t) && t.pc == Working(false) && Below(t.used, n + 3)
            && t.journal.Some? && t.journal.value.value == Ownership(s) && t.committed == s.committed
            && t.ledger.Some? && t.ledger.value.value.rest == Artifacts(s).rest && t.executable == s.executable
            && (s.journal.None? ==> t.ledger.value.value.journal == Some(t.journal.value.inode))
  {
    var a := Apply(s, RestoreLedger(n));
    var b := Apply(a, RestoreJournal(n + 1));
    ReachesOne(s, RestoreLedger(n));
    ReachesOne(a, RestoreJournal(n + 1));
    ReachesOn(s, [RestoreLedger(n)], a, [RestoreJournal(n + 1)], b);
    assert [RestoreLedger(n)] + [RestoreJournal(n + 1)] == [RestoreLedger(n), RestoreJournal(n + 1)];
    if s.journal.None? {
      ReachesOne(b, Record(n + 2));
      ReachesOn(s, [RestoreLedger(n), RestoreJournal(n + 1)], b, [Record(n + 2)], Apply(b, Record(n + 2)));
      assert [RestoreLedger(n), RestoreJournal(n + 1)] + [Record(n + 2)] ==
             [RestoreLedger(n), RestoreJournal(n + 1), Record(n + 2)];
    }
  }

  /** Unregistering commits the journal and records its new file. */
  lemma WorkRecords(s: State, rest: nat, n: nat) returns (events: seq<Event>, t: State)
    requires s.pc.Working? && Below(s.used, n) && s.ledger.Some?
    ensures Reaches(s, events, t) && t.pc == Refreshing(Second(false)) && Below(t.used, n + 2)
    ensures t.journal == Some(File(n, Ownership(s).(rest := rest)))
    ensures t.ledger.Some? && t.ledger.value.value.journal == Some(n)
    ensures t.executable == s.executable
  {
    var a := Apply(s, UpdateJournal(rest, n));
    var b := Apply(a, Record(n + 1));
    t := Apply(b, EndWork(false));
    ReachesOne(s, UpdateJournal(rest, n));
    ReachesOne(a, Record(n + 1));
    ReachesOne(b, EndWork(false));
    ReachesOn(s, [UpdateJournal(rest, n)], a, [Record(n + 1)], b);
    ReachesOn(s, [UpdateJournal(rest, n)] + [Record(n + 1)], b, [EndWork(false)], t);
    events := [UpdateJournal(rest, n)] + [Record(n + 1)] + [EndWork(false)];
  }

  /** With the marker saved and everything recorded, the last removals go through. */
  lemma RemovalsGoThrough(s: State) returns (events: seq<Event>, t: State)
    requires s.pc.RemovingJournal? && s.journal.Some? && s.ledger.Some? && s.marker.Some?
    requires s.journal.value.value.provenance.Some?
    requires s.ledger.value.value.journal == Some(s.journal.value.inode)
    requires s.marker.value.ledgerInode == Some(s.ledger.value.inode)
    ensures Reaches(s, events, t)
    ensures !t.executable && t.journal.None? && t.ledger.None? && t.marker.None? && t.pc.Idle?
  {
    var a := Apply(s, RemoveJournal);
    var b := Apply(a, RemoveLedger);
    var c := Apply(b, RemoveExecutable);
    t := Apply(c, Finish);
    ReachesOne(s, RemoveJournal);
    ReachesOne(a, RemoveLedger);
    ReachesOne(b, RemoveExecutable);
    ReachesOne(c, Finish);
    ReachesOn(s, [RemoveJournal], a, [RemoveLedger], b);
    ReachesOn(s, [RemoveJournal] + [RemoveLedger], b, [RemoveExecutable], c);
    ReachesOn(s, [RemoveJournal] + [RemoveLedger] + [RemoveExecutable], c, [Finish], t);
    events := [RemoveJournal] + [RemoveLedger] + [RemoveExecutable] + [Finish];
  }

  /**
   From wherever a crash left things, if the committed journal proves the
   executable, one undisturbed retry removes everything.
   */
  lemma RetryCompletes(s: State, rest: nat) returns (events: seq<Event>, t: State)
    requires Inv(s) && s.pc.Idle? && s.executable && s.committed.provenance.Some?
    ensures Reaches(s, events, t)
    ensures !t.executable && t.journal.None? && t.ledger.None? && t.marker.None? && t.pc.Idle?
  {
    hide Inv, Apply, Enabled, Reaches;
    var n := FreeInodes(s.used);
    var e1, s1 := RestoreRebuilds(s, n);
    var e2, s2 := WorkRecords(s1, rest, n + 4);
    var s3 := Saves(s2, n + 6);
    var e4, s4 := RemovalsGoThrough(s3);
    ReachesOn(s, e1, s1, e2, s2);
    ReachesOn(s, e1 + e2, s2, [Refresh(n + 6), WriteMarker], s3);
    ReachesOn(s, e1 + e2 + [Refresh(n + 6), WriteMarker], s3, e4, s4);
    events, t := e1 + e2 + [Refresh(n + 6), WriteMarker] + e4, s4;
  }

  // ------------------------------------------------ every undisturbed retry

  /** Nothing crashes and no step fails; the ordinary commands stay away. */
  predicate Calm(e: Event) {
    !e.Crash? && !e.GiveUp? && !e.RecordFails? && !(e.EndWork? && e.failed) && !e.Ordinary? && !e.OrdinaryRecord?
  }

  /** The journal file is there, and the ledger names it. */
  predicate IsRecorded(s: State) {
    s.journal.Some? && s.ledger.Some? && s.ledger.value.value.journal == Some(s.journal.value.inode)
  }

  /** The marker knows the ledger file, if there is one. */
  predicate KnowsLedger(s: State) {
    && s.marker.Some? && s.marker.value.ledgerInode.Some?
    && (s.ledger.Some? ==> s.marker.value.ledgerInode == Some(s.ledger.value.inode))
  }

  /** Where a retry that nothing disturbed stands, from its first step to its end. */
  predicate OnTrack(s: State) {
    match s.pc
    case Idle => !s.executable && s.journal.None? && s.ledger.None? && s.marker.None?
    case Refreshing(First) => s.executable && Ownership(s).provenance.Some?
    case Marking(First, _, _) => s.executable && Ownership(s).provenance.Some?
    case RestoringLedger => s.executable && Ownership(s).provenance.Some?
    case RestoringJournal => s.executable && Ownership(s).provenance.Some? && s.ledger.Some?
    case Recording(inode, _) =>
      s.executable && Ownership(s).provenance.Some? && s.ledger.Some? && s.journal.Some? && s.journal.value.inode == inode
    case Working(updated) =>
      s.executable && Ownership(s).provenance.Some? && s.ledger.Some? && s.journal.Some? && (updated ==> IsRecorded(s))
    case Refreshing(Second(failed)) => !failed && s.executable && Ownership(s).provenance.Some? && IsRecorded(s)
    case Marking(Second(failed), _, known) =>
      !failed && s.executable && Ownership(s).provenance.Some? && IsRecorded(s) && known == Some(s.ledger.value.inode)
    case RemovingJournal => s.executable && Ownership(s).provenance.Some? && IsRecorded(s) && KnowsLedger(s)
    case RemovingLedger => s.executable && s.journal.None? && KnowsLedger(s)
    case RemovingExecutable => s.executable && s.journal.None? && s.ledger.None?
    case Finishing => !s.executable && s.journal.None? && s.ledger.None?
    case _ => false
  }

  lemma CalmStepOnTrack(s: State, e: Event)
    requires OnTrack(s) && Enabled(s, e) && Calm(e)
    ensures OnTrack(Apply(s, e))
  {
  }

  /** Steps left, but for updates of the journal and of the ledger. */
  function Rank(pc: Pc): nat {
    match pc
    case Refreshing(First) => 12
    case Marking(First, _, _) => 11
    case RestoringLedger => 10
    case RestoringJournal => 9
    case Recording(_, _) => 8
    case Working(_) => 7
    case Refreshing(_) => 6
    case Marking(_, _, _) => 5
    case RemovingJournal => 4
    case RemovingLedger => 3
    case RemovingExecutable => 2
    case Finishing => 1
    case Idle => 0
  }

  function Updates(events: seq<Event>): nat {
    if events == [] then 0
    else (if events[0].UpdateJournal? || events[0].UpdateLedger? then 1 else 0) + Updates(events[1..])
  }

  lemma CalmStepRank(s: State, e: Event)
    requires OnTrack(s) && Enabled(s, e) && Calm(e)
    ensures Rank(Apply(s, e).pc) < Rank(s.pc) + 2 * Updates([e])
  {
    assert [e][1..] == [];
    assert Updates([e]) == (if e.UpdateJournal? || e.UpdateLedger? then 1 else 0) + Updates([]);
  }

  lemma {:induction false} CalmPathOnTrack(s: State, events: seq<Event>, t: State)
    requires OnTrack(s) && Reaches(s, events, t) && forall e :: e in events ==> Calm(e)
    ensures OnTrack(t) && |events| + Rank(t.pc) <= Rank(s.pc) + 2 * Updates(events)
    decreases |events|
  {
    hide OnTrack, Enabled, Apply, Calm, Rank;
    if events != [] {
      var e := events[0];
      assert e in events;
      CalmStepOnTrack(s, e);
      CalmStepRank(s, e);
      assert [e][1..] == [];
      assert Updates([e]) == (if e.UpdateJournal? || e.UpdateLedger? then 1 else 0) + Updates([]);
      assert forall d :: d in events[1..] ==> d in events;
      CalmPathOnTrack(Apply(s, e), events[1..], t);
    }
  }

  /** A retry on track always has a next step. */
  lemma NeverStuck(s: State) returns (e: Event)
    requires OnTrack(s) && !s.pc.Idle?
    ensures Enabled(s, e) && Calm(e)
  {
    var n := FreeInodes(s.used);
    match s.pc {
      case Refreshing(_) => e := Refresh(n);
      case Marking(_, _, _) => e := WriteMarker;
      case RestoringLedger => e := RestoreLedger(n);
      case RestoringJournal => e := RestoreJournal(n);
      case Recording(_, _) => e := Record(n);
      case Working(updated) => e := if updated then EndWork(false) else UpdateJournal(0, n);
      case RemovingJournal => e := RemoveJournal;
      case RemovingLedger => e := RemoveLedger;
      case RemovingExecutable => e := RemoveExecutable;
      case Finishing => e := Finish;
    }
  }

  /**
   From wherever a crash left things, if the committed journal proves the executable:
   whatever steps a retry takes, as long as nothing disturbs it, it never gives up
   or gets stuck, it can only go on by updates, and when it is over everything is removed.
   */
  lemma UndisturbedRetryRemovesAll(s: State, events: seq<Event>, t: State)
    requires Inv(s) && s.pc.Idle? && s.executable && s.committed.provenance.Some?
    requires Reaches(s, [Start] + events, t) && forall e :: e in events ==> Calm(e)
    ensures t.pc.Idle? ==> !t.executable && t.journal.None? && t.ledger.None? && t.marker.None?
    ensures !t.pc.Idle? ==> exists e :: Enabled(t, e) && Calm(e)
    ensures |events| <= 12 + 2 * Updates(events)
  {
    hide Calm;
    var started := Apply(s, Start);
    assert ([Start] + events)[0] == Start && ([Start] + events)[1..] == events;
    CalmPathOnTrack(started, events, t);
    if !t.pc.Idle? {
      var e := NeverStuck(t);
    }
  }

  /** The same after a crash in any reachable state. */
  lemma EveryRetryRemovesAll(states: seq<State>, events: seq<Event>, i: nat, retry: seq<Event>, t: State)
    requires Run(states, events) && i < |states| && states[i].executable && Ownership(states[i]).provenance.Some?
    requires Reaches(states[i], [Crash, Start] + retry, t) && forall e :: e in retry ==> Calm(e)
    ensures t.pc.Idle? ==> !t.executable && t.journal.None? && t.ledger.None? && t.marker.None?
    ensures !t.pc.Idle? ==> exists e :: Enabled(t, e) && Calm(e)
    ensures |retry| <= 12 + 2 * Updates(retry)
  {
    hide Calm, Updates;
    RunInv(states, events, i);
    StepInv(states[i], Crash);
    assert ([Crash, Start] + retry)[0] == Crash && ([Crash, Start] + retry)[1..] == [Start] + retry;
    UndisturbedRetryRemovesAll(Apply(states[i], Crash), retry, t);
  }

  /** Every reachable state with the executable in place can be retried after a crash. */
  lemma EveryCrashCanBeRetried(states: seq<State>, events: seq<Event>, i: nat, rest: nat) returns (retry: seq<Event>, t: State)
    requires Run(states, events) && i < |states| && states[i].executable && Ownership(states[i]).provenance.Some?
    ensures Reaches(states[i], [Crash] + retry, t)
    ensures !t.executable && t.journal.None? && t.ledger.None? && t.marker.None?
  {
    hide Reaches;
    RunInv(states, events, i);
    var crashed := Apply(states[i], Crash);
    StepInv(states[i], Crash);
    ReachesOne(states[i], Crash);
    retry, t := RetryCompletes(crashed, rest);
    ReachesOn(states[i], [Crash], crashed, retry, t);
  }

  // ------------------------------------------------------ only what is recorded

  /**
   The journal's file goes only with proof of the executable in it and with the ledger
   naming that very file; the ledger's file only when the marker knows that very file.
   Otherwise nothing goes, and the marker is saved a last time.
   */
  lemma OnlyRecordedFilesGo(s: State)
    ensures s.pc.RemovingJournal? ==>
              var t := Apply(s, RemoveJournal);
              if Ownership(s).provenance.Some? && s.ledger.Some? && s.ledger.value.value.journal.Some? &&
                 (s.journal.Some? ==> s.ledger.value.value.journal.value == s.journal.value.inode)
              then t == s.(journal := None, pc := RemovingLedger) else t == s.(pc := Refreshing(Third))
    ensures s.pc.RemovingLedger? ==>
              var t := Apply(s, RemoveLedger);
              if s.marker.Some? && s.marker.value.ledgerInode.Some? &&
                 (s.ledger.Some? ==> s.marker.value.ledgerInode.value == s.ledger.value.inode)
              then t == s.(ledger := None, pc := RemovingExecutable) else t == s.(pc := Refreshing(Third))
  {
  }

  /** Where the executable is gone, it was removed with the provenance proven. */
  lemma {:induction false} ExecutableWasProven(states: seq<State>, events: seq<Event>, i: nat) returns (h: nat)
    requires Run(states, events) && i < |states| && !states[i].executable
    ensures h < i && events[h].RemoveExecutable? && states[h].executable && states[h].committed.provenance.Some?
  {
    hide Inv, Apply, Enabled;
    if i > 0 {
      if !states[i - 1].executable {
        h := ExecutableWasProven(states, events, i - 1);
      } else {
        h := i - 1;
        OnlyOneStepRemoves(states[h], events[h]);
        ExecutableGoesBeforeMarkerOnly(states, events, h);
      }
    }
  }

  lemma OnlyOneStepRemoves(s: State, e: Event)
    requires Enabled(s, e) && s.executable && !Apply(s, e).executable
    ensures e.RemoveExecutable?
  {
  }
}
