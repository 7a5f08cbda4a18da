/**
 Self-removal as the program runs it, statement by statement
 (src/cleanup/self_remove.rs, src/cleanup/self_state.rs,
 src/cleanup/self_artifacts.rs). Every file operation is recorded as an event of
 the self-removal machine, so that whatever is proved about all its runs holds of
 this program, wherever it is cut off.
 */
module SelfRemovalProgram {
  import opened Common
  import opened SelfRemoval

  lemma RunExtends(states: seq<State>, events: seq<Event>, e: Event)
    requires Run(states, events) && Enabled(Last(states), e)
    ensures Run(states + [Apply(Last(states), e)], events + [e])
  {
    hide Enabled, Apply, Init;
    var more, all := states + [Apply(Last(states), e)], events + [e];
    forall i {:trigger all[i]} | 0 <= i < |all| ensures Enabled(more[i], all[i]) && more[i + 1] == Apply(more[i], all[i]) {
      assert i < |events| ==> all[i] == events[i];
    }
  }

  class SelfRemover {
    var journal: Option<File<Journal>>
    var ledger: Option<File<Ledger>>
    var marker: Option<Marker>
    var executable: bool
    var next: Inode
    // Whether each coming step works; an exhausted script fails no more.
    var script: seq<bool>
    ghost var states: seq<State>
    ghost var events: seq<Event>

    /** A process that finds the files as some run of the machine left them. */
    constructor (cells: State, next: Inode, script: seq<bool>, ghost states: seq<State>, ghost events: seq<Event>)
      requires Run(states, events) && cells == Last(states) && forall i :: i in cells.used ==> i < next
      ensures Valid() && this.states == states && this.events == events
    {
      journal, ledger, marker, executable := cells.journal, cells.ledger, cells.marker, cells.executable;
      this.next, this.script := next, script;
      this.states, this.events := states, events;
    }

    ghost function Now(): State
      reads this
      requires states != []
    {
      Last(states)
    }

    /** The files are those of a reachable state of the machine, and `next` names none. */
    ghost predicate Valid()
      reads this
    {
      && states != [] && Run(states, events)
      && Now().journal == journal && Now().ledger == ledger && Now().marker == marker && Now().executable == executable
      && forall i :: i in Now().used ==> i < next
    }

    ghost predicate Is(pc: Pc)
      reads this
      requires states != []
    {
      Now().pc == pc
    }

    /** Nothing disturbed the call so far, and nothing will. */
    ghost predicate Undisturbed()
      reads this
    {
      script == [] && states != [] && OnTrack(Now())
    }

    /** The step just taken is an event of the machine. */
    ghost method Took(e: Event)
      requires states != [] && Run(states, events) && Enabled(Now(), e)
      modifies this`states, this`events
      ensures states == old(states) + [Apply(old(Now()), e)] && events == old(events) + [e]
      ensures Run(states, events) && Now() == Apply(old(Now()), e)
      ensures old(OnTrack(Now())) && Calm(e) ==> OnTrack(Now())
    {
      RunExtends(states, events, e);
      if OnTrack(Now()) && Calm(e) {
        CalmStepOnTrack(Now(), e);
      }
      states, events := states + [Apply(Now(), e)], events + [e];
    }

    /** The process returns with an error, or dies. */
    ghost method Gone()
      requires Valid()
      modifies this`states, this`events
      ensures Valid() && Is(Idle) && old(events) <= events
    {
      hide Run;
      Took(Crash);
    }

    method Step() returns (go: bool)
      modifies this`script
      ensures old(script) == [] ==> go && script == []
    {
      if script == [] {
        return true;
      }
      go := script[0];
      script := script[1..];
    }

    method NewInode() returns (inode: Inode)
      requires Valid()
      modifies this`next
      ensures Valid() && inode !in Now().used && next == inode + 1
    {
      inode := next;
      next := next + 1;
    }

    /** `self_state::ownership`. */
    function Recovered(): Journal
      reads this
    {
      if journal.Some? then journal.value.value else if marker.Some? then marker.value.journal else DEFAULT_JOURNAL
    }

    /** `self_state::artifacts`. */
    function RecoveredLedger(): Ledger
      reads this
    {
      if ledger.Some? then ledger.value.value else if marker.Some? then marker.value.ledger else DEFAULT_LEDGER
    }

    /** `self_state::save`: the ledger is rewritten, then both files are backed up in the marker. */
    method SaveMarker(save: Save) returns (ok: bool)
      requires Valid() && Is(Refreshing(save))
      modifies this
      ensures Valid() && old(events) <= events && executable == old(executable)
      ensures Is(if ok then AfterSave(save) else Idle)
      ensures old(Undisturbed()) ==> ok && Undisturbed()
    {
      hide Run, Valid, Is, Undisturbed;
      var copy, known;
      ok, copy, known := RefreshLedger(save);
      if ok {
        ok := PutMarker(save, copy, known);
      }
    }

    method RefreshLedger(save: Save) returns (ok: bool, copy: Ledger, known: Option<Inode>)
      requires Valid() && Is(Refreshing(save))
      modifies this
      ensures Valid() && old(events) <= events && executable == old(executable)
      ensures Is(if ok then Marking(save, copy, known) else Idle)
      ensures old(Undisturbed()) ==> ok && Undisturbed()
    {
      hide Run;
      copy := RecoveredLedger();
      known := if marker.Some? then marker.value.ledgerInode else None;
      ok := Step();
      if !ok {
        Gone();
        return;
      }
      var inode := NewInode();
      if ledger.Some? {
        ledger := Some(File(inode, copy));
        known := Some(inode);
      }
      Took(Event.Refresh(inode));
    }

    method PutMarker(save: Save, copy: Ledger, known: Option<Inode>) returns (ok: bool)
      requires Valid() && Is(Marking(save, copy, known))
      modifies this
      ensures Valid() && old(events) <= events && executable == old(executable)
      ensures Is(if ok then AfterSave(save) else Idle)
      ensures old(Undisturbed()) ==> ok && Undisturbed()
    {
      hide Run;
      ok := Step();
      if !ok {
        Gone();
        return;
      }
      marker := Some(Marker(Recovered(), copy, known));
      Took(Event.WriteMarker);
    }

    /** After a journal file was put in place, its identity goes into the ledger. */
    method RecordJournal(inode: Inode, updated: bool) returns (ok: bool)
      requires Valid() && Is(Recording(inode, updated))
      modifies this
      ensures Valid() && old(events) <= events && executable == old(executable) && journal == old(journal)
      ensures Is(if ok then Working(updated) else Refreshing(Second(true)))
      ensures ok ==> ledger.Some?
      ensures old(Undisturbed()) ==> ok && Undisturbed()
      ensures ok ==> ledger.value.value.journal == Some(inode)
    {
      hide Run;
      ok := Step();
      if !ok {
        Took(Event.RecordFails);
        return;
      }
      var other := NewInode();
      var entries := if ledger.Some? then ledger.value.value else DEFAULT_LEDGER;
      ledger := Some(File(other, entries.(journal := Some(inode))));
      Took(Event.Record(other));
    }

    /** `restore`: what is missing is written again from the marker. */
    method Restore() returns (ok: bool)
      requires Valid() && Is(RestoringLedger)
      modifies this
      ensures Valid() && old(events) <= events && executable == old(executable)
      ensures if ok then Is(Working(false)) && journal.Some? && ledger.Some? else Is(Idle)
      ensures old(Undisturbed()) ==> ok && Undisturbed()
    {
      hide Run, Valid, Is, Undisturbed;
      ok := PutLedger();
      if ok {
        ok := PutJournal();
      }
    }

    method PutLedger() returns (ok: bool)
      requires Valid() && Is(RestoringLedger)
      modifies this
      ensures Valid() && old(events) <= events && executable == old(executable)
      ensures if ok then Is(RestoringJournal) && ledger.Some? else Is(Idle)
      ensures old(Undisturbed()) ==> ok && Undisturbed()
    {
      hide Run;
      ok := Step();
      if !ok {
        Gone();
        return;
      }
      var inode := NewInode();
      if ledger.None? {
        ledger := Some(File(inode, RecoveredLedger()));
      }
      Took(Event.RestoreLedger(inode));
    }

    method PutJournal() returns (ok: bool)
      requires Valid() && Is(RestoringJournal) && ledger.Some?
      modifies this
      ensures Valid() && old(events) <= events && executable == old(executable)
      ensures if ok then Is(Working(false)) && journal.Some? && ledger.Some? else Is(Idle)
      ensures old(Undisturbed()) ==> ok && Undisturbed()
    {
      hide Run, Valid, Is, Undisturbed;
      var missing := journal.None?;
      var inode;
      ok, inode := RestoreFile();
      if ok && missing {
        ok := RecordJournal(inode, false);
        if !ok {
          Gone();
        }
      }
    }

    method RestoreFile() returns (ok: bool, inode: Inode)
      requires Valid() && Is(RestoringJournal)
      modifies this
      ensures Valid() && old(events) <= events && executable == old(executable) && ledger == old(ledger)
      ensures ok ==> journal.Some?
      ensures Is(if !ok then Idle else if old(journal).None? then Recording(inode, false) else Working(false))
      ensures old(Undisturbed()) ==> ok && Undisturbed()
    {
      hide Run;
      inode := next;
      ok := Step();
      if !ok {
        Gone();
        return;
      }
      inode := NewInode();
      if journal.None? {
        journal := Some(File(inode, Recovered()));
      }
      Took(Event.RestoreJournal(inode));
    }

    /** One journal update of the work: the file first, then its record in the ledger. */
    method Commit(rest: nat, ghost updated: bool) returns (ok: bool)
      requires Valid() && Is(Working(updated))
      modifies this
      ensures Valid() && old(events) <= events && executable == old(executable)
      ensures if ok then Is(Working(true)) && ledger.Some? else Is(Refreshing(Second(true)))
      ensures old(Undisturbed()) ==> ok && Undisturbed()
      ensures ok ==>
                && journal.Some? && ledger.Some? && ledger.value.value.journal == Some(journal.value.inode)
                && journal.value.value == old(Recovered()).(rest := rest)
    {
      hide Run, Valid, Is, Undisturbed;
      var inode;
      ok, inode := PutUpdate(rest, updated);
      if ok {
        ok := RecordJournal(inode, true);
      }
    }

    method PutUpdate(rest: nat, ghost updated: bool) returns (ok: bool, inode: Inode)
      requires Valid() && Is(Working(updated))
      modifies this
      ensures Valid() && old(events) <= events && executable == old(executable)
      ensures Is(if ok then Recording(inode, true) else Refreshing(Second(true)))
      ensures old(Undisturbed()) ==> ok && Undisturbed()
      ensures ok ==> journal == Some(File(inode, old(Recovered()).(rest := rest)))
    {
      hide Run;
      inode := next;
      ok := Step();
      if !ok {
        Took(Event.EndWork(true));
        return;
      }
      inode := NewInode();
      journal := Some(File(inode, Recovered().(rest := rest)));
      Took(Event.UpdateJournal(rest, inode));
    }

    /** The user scope is unregistered, then every installation's outcome goes into the journal. */
    method Work(unregistered: nat, outcomes: seq<nat>) returns (ok: bool)
      requires Valid() && Is(Working(false))
      modifies this
      ensures Valid() && old(events) <= events && executable == old(executable)
      ensures Is(Refreshing(Second(!ok)))
      ensures old(Undisturbed()) ==> ok && Undisturbed()
      ensures ok ==>
                && journal.Some? && ledger.Some? && ledger.value.value.journal == Some(journal.value.inode)
                && journal.value.value ==
                   old(Recovered()).(rest := if outcomes == [] then unregistered else outcomes[|outcomes| - 1])
    {
      hide Run, Is, Undisturbed;
      ok := Commit(unregistered, false);
      if !ok {
        return;
      }
      for i := 0 to |outcomes|
        invariant Valid() && Is(Working(true)) && old(events) <= events && executable == old(executable)
        invariant old(Undisturbed()) ==> Undisturbed()
        invariant journal.Some? && ledger.Some? && ledger.value.value.journal == Some(journal.value.inode)
        invariant journal.value.value == old(Recovered()).(rest := if i == 0 then unregistered else outcomes[i - 1])
      {
        ok := Commit(outcomes[i], true);
        if !ok {
          return;
        }
      }
      WorkIsDone();
    }

    ghost method WorkIsDone()
      requires Valid() && Is(Working(true))
      modifies this`states, this`events
      ensures Valid() && Is(Refreshing(Second(false))) && old(events) <= events
      ensures old(Undisturbed()) ==> Undisturbed()
    {
      hide Run;
      Took(Event.EndWork(false));
    }

    /** `metadata` and the removal of the executable; a refusal or failure leaves the rest in place. */
    method FinishResources() returns (ok: bool)
      requires Valid() && Is(RemovingJournal)
      modifies this
      ensures Valid() && old(events) <= events
      ensures if ok then Is(Finishing) && !executable && journal.None? && ledger.None? else Is(Refreshing(Third))
      ensures old(Undisturbed()) ==> ok && Undisturbed()
      ensures ok ==> old(Recovered()).provenance.Some?
      ensures ok && old(journal).Some? ==> old(ledger).Some? && old(ledger).value.value.journal == Some(old(journal).value.inode)
      ensures ok && old(ledger).Some? ==> old(marker).Some? && old(marker).value.ledgerInode == Some(old(ledger).value.inode)
    {
      hide Run, Valid, Is, Undisturbed;
      ok := RemoveTheJournal();
      if ok {
        ok := RemoveTheLedger();
      }
      if ok {
        ok := RemoveTheExecutable();
      }
    }

    method RemoveTheJournal() returns (ok: bool)
      requires Valid() && Is(RemovingJournal)
      modifies this
      ensures Valid() && old(events) <= events
      ensures if ok then Is(RemovingLedger) && journal.None? else Is(Refreshing(Third))
      ensures old(Undisturbed()) ==> ok && Undisturbed()
      ensures ok ==> old(Recovered()).provenance.Some?
      ensures ok && old(journal).Some? ==> old(ledger).Some? && old(ledger).value.value.journal == Some(old(journal).value.inode)
      ensures ledger == old(ledger) && marker == old(marker)
    {
      hide Run;
      ok := Step();
      if !ok {
        Took(Event.GiveUp);
        return;
      }
      ok := Recovered().provenance.Some? && ledger.Some? && ledger.value.value.journal.Some?
            && (journal.Some? ==> ledger.value.value.journal == Some(journal.value.inode));
      if ok {
        journal := None;
      }
      Took(Event.RemoveJournal);
    }

    method RemoveTheLedger() returns (ok: bool)
      requires Valid() && Is(RemovingLedger) && journal.None?
      modifies this
      ensures Valid() && old(events) <= events
      ensures if ok then Is(RemovingExecutable) && journal.None? && ledger.None? else Is(Refreshing(Third))
      ensures old(Undisturbed()) ==> ok && Undisturbed()
      ensures ok && old(ledger).Some? ==> old(marker).Some? && old(marker).value.ledgerInode == Some(old(ledger).value.inode)
    {
      hide Run;
      ok := Step();
      if !ok {
        Took(Event.GiveUp);
        return;
      }
      ok := marker.Some? && marker.value.ledgerInode.Some?
            && (ledger.Some? ==> marker.value.ledgerInode == Some(ledger.value.inode));
      if ok {
        ledger := None;
      }
      Took(Event.RemoveLedger);
    }

    method RemoveTheExecutable() returns (ok: bool)
      requires Valid() && Is(RemovingExecutable) && journal.None? && ledger.None?
      modifies this
      ensures Valid() && old(events) <= events
      ensures if ok then Is(Finishing) && !executable && journal.None? && ledger.None? else Is(Refreshing(Third))
      ensures old(Undisturbed()) ==> ok && Undisturbed()
    {
      hide Run;
      ok := Step();
      if !ok {
        Took(Event.GiveUp);
        return;
      }
      executable := false;
      Took(Event.RemoveExecutable);
    }

    method FinishMaintenance() returns (ok: bool)
      requires Valid() && Is(Finishing)
      modifies this
      ensures Valid() && Is(Idle) && old(events) <= events
      ensures executable == old(executable) && journal == old(journal) && ledger == old(ledger) && (ok ==> marker.None?)
      ensures old(Undisturbed()) ==> ok && Undisturbed()
    {
      hide Run;
      ok := Step();
      if !ok {
        Gone();
        return;
      }
      marker := None;
      Took(Event.Finish);
    }

    ghost method Begins()
      requires Valid() && Is(Idle) && executable
      modifies this`states, this`events
      ensures Valid() && Is(Refreshing(First)) && old(events) <= events
      ensures old(script) == [] && old(Recovered()).provenance.Some? ==> Undisturbed()
    {
      hide Run;
      Took(Event.Start);
    }

    /**
     `execute`. If it succeeds nothing is left; however else it ends with the
     executable in place, the journal committed last can be recovered. It succeeds
     whenever no step fails and the journal proves the executable, whatever an
     earlier attempt left behind.
     */
    method Execute(unregistered: nat, outcomes: seq<nat>) returns (ok: bool)
      requires Valid() && Is(Idle) && executable
      modifies this
      ensures Valid() && Is(Idle) && old(events) <= events
      ensures ok ==> !executable && journal.None? && ledger.None? && marker.None?
      ensures executable ==> Recovered() == Now().committed
      ensures old(script) == [] && old(Recovered()).provenance.Some? ==> ok
    {
      ok := Attempt(unregistered, outcomes);
      if executable {
        JournalIsAlwaysRecoverable(states, events, |states| - 1);
      }
    }

    method Attempt(unregistered: nat, outcomes: seq<nat>) returns (ok: bool)
      requires Valid() && Is(Idle) && executable
      modifies this
      ensures Valid() && Is(Idle) && old(events) <= events
      ensures ok ==> !executable && journal.None? && ledger.None? && marker.None?
      ensures old(script) == [] && old(Recovered()).provenance.Some? ==> ok
    {
      hide Run, Valid, Is, Undisturbed;
      Begins();
      ok := SaveMarker(First);
      if ok {
        ok := Restore();
      }
      if !ok {
        return;
      }
      ok := Work(unregistered, outcomes);
      var failed := !ok;
      ok := SaveMarker(Second(failed));
      if !ok {
        return;
      }
      if !failed {
        ok := FinishResources();
        failed := !ok;
      }
      if failed {
        ok := SaveMarker(Third);
        ok := false;
      } else {
        ok := FinishMaintenance();
      }
    }
  }
}
