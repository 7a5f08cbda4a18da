/**
 An install as the program runs it, statement by statement
 (src/supervisor/manager/install.rs, src/install/target.rs,
 src/install/records.rs). Every step is recorded as an event of the install
 machine, so that whatever is proved about all its runs holds of this program.
 */
module InstallProgram {
  import opened Common
  import opened Install

  /** Before a step others may edit the configuration; the step may fail, and a save may fail after it was written. */
  datatype Move = Quiet | Edits(config: Config) | Fails(written: bool)

  lemma RunExtends(states: seq<State>, events: seq<Event>, e: Event)
    requires Run(states, events) && Enabled(Last(states), e)
    ensures Run(states + [Apply(Last(states), e)], events + [e])
  {
    hide Enabled, Apply, Init;
    var more, all := states + [Apply(Last(states), e)], events + [e];
    forall i {:trigger all[i]} | 0 <= i < |all| ensures Enabled(more[i], all[i]) && more[i + 1] == Apply(more[i], all[i]) {
      assert i < |events| ==> all[i] == events[i];
    }
  }

  /** What a save changes. */
  lemma SaveEffect(s: State, a: Actor, outcome: Outcome)
    requires a in s.actors
    ensures var t := AfterSave(s, a, outcome);
            var pc, next := s.actors[a], Next(s.actors[a].phase, outcome.Saved?);
            && t.configs == s.configs && t.placed == s.placed
            && t.entries == (if outcome.NotSaved? then s.entries else s.entries[pc.task.id := EntryAt(pc)])
            && t.operations == (if outcome.NotSaved? then s.operations else s.operations[pc.task.id := ProgressAt(pc.phase)])
            && if next.Some? then a in t.actors && t.actors[a] == pc.(phase := next.value) else a !in t.actors
  {
    hide EntryAt, ProgressAt, Next;
  }

  class Installer {
    const me: Actor
    const id: Id
    const scope: Scope
    const name: string
    // The configuration of the scope, and this install's journal entry.
    var config: Config
    var entry: Option<(Entry, Progress)>
    // The installation as it is held in memory, and what is staged.
    var registration: Registration
    var resolved: bool
    var previous: Config
    var staged: Config
    var script: seq<Move>
    ghost var states: seq<State>
    ghost var events: seq<Event>

    constructor (me: Actor, id: Id, scope: Scope, name: string, config: Config, script: seq<Move>,
                 ghost states: seq<State>, ghost events: seq<Event>)
      requires Run(states, events) && ConfigOf(Last(states), scope) == config && id !in Last(states).entries
      ensures Valid() && entry.None? && this.me == me && this.id == id && this.scope == scope && this.name == name
      ensures this.states == states && this.events == events
    {
      this.me, this.id, this.scope, this.name, this.config, this.script := me, id, scope, name, config, script;
      this.entry, this.registration, this.resolved := None, Unregistered, false;
      this.previous, this.staged := map[], map[];
      this.states, this.events := states, events;
    }

    ghost function Now(): State
      reads this
      requires states != []
    {
      Last(states)
    }

    /** The cells are those of a reachable state of the machine. */
    ghost predicate Valid()
      reads this
    {
      && states != [] && Run(states, events) && ConfigOf(Now(), scope) == config
      && (if entry.None? then id !in Now().entries
          else
            && id in Now().entries && id in Now().operations
            && entry.value == (Now().entries[id], Now().operations[id]))
    }

    function Job(): Task
      reads this
    {
      Task(id, scope, name, previous, staged)
    }

    ghost predicate Is(phase: Phase)
      reads this
      requires states != []
    {
      me in Now().actors && Now().actors[me] == Pc(Job(), phase)
    }

    /** What a save at this phase records is what memory holds. */
    predicate Agrees(phase: Phase)
      reads this
    {
      EntryAt(Pc(Job(), phase)) == Entry(scope, name, registration, staged, resolved)
    }

    lemma MemoryAgrees()
      ensures registration.Unregistered? && !resolved ==> Agrees(Locked) && Agrees(PreparedSaved)
      ensures registration.Unregistered? ==> Agrees(RollingBack(resolved))
      ensures registration.Unregistered? && resolved ==> Agrees(Resolved)
      ensures registration.Registered? && resolved ==> Agrees(Phase.Staged) && Agrees(Renamed)
    {
    }

    ghost predicate Away()
      reads this
      requires states != []
    {
      me !in Now().actors
    }

    /** The step just taken is an event of the machine. */
    ghost method Took(e: Event)
      requires states != [] && Run(states, events) && Enabled(Now(), e)
      modifies this`states, this`events
      ensures states == old(states) + [Apply(old(Now()), e)] && events == old(events) + [e]
      ensures Run(states, events) && Now() == Apply(old(Now()), e)
    {
      RunExtends(states, events, e);
      states, events := states + [Apply(Now(), e)], events + [e];
    }

    /** Others edit the configuration; false if the coming step fails. */
    method Step() returns (go: bool, written: bool)
      requires Valid()
      modifies this`config, this`script, this`states, this`events
      ensures Valid() && old(events) <= events
      ensures Now() == old(Now()).(configs := Now().configs) && (go ==> written)
      ensures old(script) == [] ==> go && script == [] && config == old(config)
    {
      hide Run;
      if script == [] {
        return true, true;
      }
      var move := script[0];
      script := script[1..];
      match move {
        case Quiet =>
        case Fails(saved) => return false, saved;
        case Edits(other) =>
          config := other;
          Took(Edit(scope, other));
      }
      return true, true;
    }

    /** A step that is no save fails: the install will roll back. */
    ghost method Failed(phase: Phase)
      requires Valid() && Is(phase) && !phase.Locked? && !phase.Renamed? && !phase.RollingBack?
      modifies this`states, this`events
      ensures Valid() && old(events) <= events && Is(RollBack(phase))
      ensures Now().placed == old(Now()).placed
    {
      hide Run;
      Took(Event.Error(me));
    }

    /** `records::save`. */
    method Save(phase: Phase, progress: Progress) returns (ok: bool)
      requires Valid() && Is(phase) && Saves(phase) && Agrees(phase) && progress == ProgressAt(phase)
      modifies this`config, this`script, this`states, this`events, this`entry
      ensures Valid() && old(events) <= events && Now().placed == old(Now()).placed
      ensures var next := Next(phase, ok);
              if next.Some? then Is(next.value) else Away()
      ensures entry == Some((Entry(scope, name, registration, staged, resolved), progress)) || (!ok && entry == old(entry))
      ensures old(script) == [] ==> ok && script == [] && config == old(config)
    {
      hide Run, EntryAt, ProgressAt, Next;
      var written;
      ok, written := Step();
      ghost var before := Now();
      if written {
        entry := Some((Entry(scope, name, registration, staged, resolved), progress));
      }
      ghost var outcome := if ok then Saved else if written then SavedThenFailed else NotSaved;
      Took(Event.Save(me, outcome));
      SaveEffect(before, me, outcome);
    }

    /** `Target::check`, then a step that others do not see. */
    method Proceed(phase: Phase) returns (ok: bool)
      requires Valid() && Is(phase) && phase in {ApplyingSaved, ResolvedSaved, RegisteredSaved}
      modifies this`config, this`script, this`states, this`events
      ensures Valid() && old(events) <= events && Now().placed == old(Now()).placed
      ensures old(script) == [] && old(config) == previous ==> ok && script == [] && config == old(config)
      ensures Is(if !ok then RollBack(phase) else if phase.ApplyingSaved? then Resolved
                 else if phase.ResolvedSaved? then Phase.Staged else Checked)
    {
      hide Run;
      var written;
      ok, written := Step();
      if !ok {
        Failed(phase);
        return;
      }
      ok := config == previous;
      Took(if phase.ApplyingSaved? then Event.Prepare(me) else if phase.ResolvedSaved? then Event.Verify(me) else Event.Check(me));
    }

    /** The configuration is replaced; the step may report failure although it was. */
    method Place() returns (ok: bool)
      requires Valid() && Is(Checked)
      modifies this`config, this`script, this`states, this`events
      ensures Valid() && old(events) <= events && Is(if ok then Renamed else RollBack(Checked))
      ensures ok ==> id in Now().placed
      ensures old(script) == [] ==> ok && script == []
    {
      hide Run;
      var written;
      ok, written := Step();
      if !written {
        Failed(Checked);
        return;
      }
      config := staged;
      Took(Event.Rename(me, ok));
    }

    /** The journal entry of an install that was rolled back. */
    function RolledBack(): (Entry, Progress)
      reads this
    {
      (Entry(scope, name, Unregistered, staged, resolved), RetryRequired)
    }

    /**
     `rollback_install`: the install is over. A save that reports success has recorded
     the rollback, with what was resolved; one that does not may have.
     */
    method Rollback() returns (recorded: bool)
      requires Valid() && Is(RollingBack(resolved))
      modifies this`config, this`script, this`states, this`events, this`entry, this`registration
      ensures Valid() && Away() && old(events) <= events
      ensures entry == Some(RolledBack()) || (!recorded && entry == old(entry))
    {
      hide Run;
      registration := Unregistered;
      MemoryAgrees();
      recorded := Save(RollingBack(resolved), RetryRequired);
    }

    /** `Target::lock` and the first save. */
    method Open(definition: Definition) returns (ok: bool)
      requires Valid() && Away() && scope !in Now().locks && id !in Now().used && entry.None?
      modifies this
      ensures Valid() && old(events) <= events
      ensures if ok then Is(PreparedSaved) else Away()
      ensures ok ==> previous == old(config)
      ensures ok ==> registration == Unregistered && !resolved && name !in previous && staged == previous[name := definition]
      ensures !ok ==> entry == old(entry) || entry == Some((Entry(scope, name, Unregistered, staged, false), Prepared))
      ensures old(script) == [] && name !in old(config) ==> ok && script == [] && config == previous
    {
      hide Run, EntryAt;
      if name in config {
        return false;
      }
      previous, staged := config, config[name := definition];
      registration, resolved := Unregistered, false;
      Took(Event.Begin(me, id, scope, name, definition));
      MemoryAgrees();
      ok := Save(Locked, Prepared);
    }

    /** A change of the installation in memory alone. */
    method Remember(phase: Phase, newRegistration: Registration, newResolved: bool)
      requires Valid() && Is(phase)
      modifies this`registration, this`resolved
      ensures Valid() && Is(phase) && registration == newRegistration && resolved == newResolved
    {
      hide Run;
      registration, resolved := newRegistration, newResolved;
    }

    /** `stage`: prepare, record the resolution, verify, with the configuration unchanged at each check. */
    method Stage() returns (ok: bool)
      requires Valid() && Is(PreparedSaved) && registration == Unregistered && !resolved
      modifies this`config, this`script, this`states, this`events, this`entry, this`registration, this`resolved
      ensures Valid() && old(events) <= events && Is(if ok then Phase.Staged else RollingBack(resolved))
      ensures registration == Unregistered && (ok ==> resolved)
      ensures entry == old(entry) || entry == Some((Entry(scope, name, Unregistered, staged, false), Applying))
              || (resolved && entry == Some((Entry(scope, name, Unregistered, staged, true), Applying)))
      ensures old(script) == [] && old(config) == previous ==> ok && script == [] && config == previous
    {
      hide Run, Valid, Is, Away, Agrees;
      MemoryAgrees();
      ok := Save(PreparedSaved, Applying);
      if ok {
        ok := Proceed(ApplyingSaved);
      }
      if ok {
        Remember(Resolved, Unregistered, true);
        MemoryAgrees();
        ok := Save(Resolved, Applying);
      }
      if ok {
        ok := Proceed(ResolvedSaved);
      }
    }

    /**
     `commit_install`: registered in the journal first, then in the configuration,
     then committed. A failure with the rollback recorded leaves the entry
     unregistered and to be retried; otherwise the entry is what the last save that
     was written made it.
     */
    method CommitInstall() returns (ok: bool, recorded: bool)
      requires Valid() && Is(Phase.Staged) && resolved
      modifies this`config, this`script, this`states, this`events, this`entry, this`registration, this`resolved
      ensures Valid() && Away() && old(events) <= events && resolved
      ensures ok ==> id in Now().placed && entry == Some((Entry(scope, name, Registered, staged, true), Committed))
      ensures recorded ==> !ok && entry == Some(RolledBack())
      ensures !ok ==> entry in {old(entry), Some(RolledBack()),
                                Some((Entry(scope, name, Registered, staged, true), Applying)),
                                Some((Entry(scope, name, Registered, staged, true), Committed))}
      ensures old(script) == [] && old(config) == previous ==> ok
    {
      hide Run, Valid, Is, Away, Agrees;
      recorded := false;
      Remember(Phase.Staged, Registered, true);
      MemoryAgrees();
      ok := Save(Phase.Staged, Applying);
      if ok {
        ok := Proceed(RegisteredSaved);
      }
      if ok {
        ok := Place();
      }
      if !ok {
        recorded := Rollback();
        return;
      }
      MemoryAgrees();
      ok := Save(Renamed, Committed);
    }

    /**
     `install`. If it returns Ok, the entry is registered and committed, and exactly
     the configuration it staged was put in place. If it fails with its rollback
     recorded, the entry is unregistered and to be retried. Left in peace it
     succeeds unless the name is taken.
     */
    method Install(definition: Definition) returns (ok: bool, recorded: bool)
      requires Valid() && Away() && scope !in Now().locks && id !in Now().used && entry.None?
      modifies this
      ensures Valid() && Away() && old(events) <= events
      ensures ok ==>
                && name !in previous && staged == previous[name := definition] && id in Now().placed
                && entry == Some((Entry(scope, name, Registered, staged, true), Committed))
      ensures recorded ==> !ok && entry == Some(RolledBack())
      ensures old(script) == [] ==> (ok <==> name !in old(config))
    {
      hide Run, Valid, Is, Away, Agrees;
      recorded := false;
      ok := Open(definition);
      if !ok {
        return;
      }
      ok := Stage();
      if !ok {
        recorded := Rollback();
        return;
      }
      ok, recorded := CommitInstall();
    }
  }
}
