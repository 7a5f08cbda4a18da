/** What the launch guard accepts, over all runs of installs, crashes and outside edits. */
module InstallTheorems {
  import opened Common
  import opened Install

  // -------------------------------------------------------------- invariant

  predicate Late(phase: Phase) {
    phase.Staged? || phase.RegisteredSaved? || phase.Checked? || phase.Renamed?
  }

  predicate PcOk(s: State, a: Actor, pc: Pc) {
    var t := pc.task;
    && t.id in s.used && t.scope in s.locks && s.locks[t.scope] == a
    && t.name in t.staged && t.staged == t.previous[t.name := t.staged[t.name]] && t.name !in t.previous
    && (Late(pc.phase) ==> t.id in s.staged)
    && (pc.phase.Renamed? ==> t.id in s.placed)
    && (t.id in s.operations ==> !s.operations[t.id].Committed? && !s.operations[t.id].RetryRequired?)
    && (pc.phase.Locked? ==> t.id !in s.entries)
    && (!pc.phase.Locked? ==> t.id in s.entries && Describes(s.entries[t.id], t))
  }

  /** The journal entry of this install. */
  predicate Describes(e: Entry, t: Task) {
    e.scope == t.scope && e.name == t.name && e.digest == t.staged
  }

  predicate EntryOk(s: State, id: Id) {
    && id in s.used && id in s.operations
    && (id in s.entries ==>
          && (s.entries[id].registration.Registered? ==>
                && id in s.staged && s.entries[id].resolved && s.entries[id].name in s.entries[id].digest
                && !s.operations[id].RetryRequired?)
          && (s.operations[id].Committed? ==> id in s.placed))
  }

  predicate Inv(s: State) {
    && s.entries.Keys == s.operations.Keys
    && (forall id :: id in s.entries ==> EntryOk(s, id))
    && (forall a :: a in s.actors ==> PcOk(s, a, s.actors[a]))
    && (forall a, b :: a in s.actors && b in s.actors && a != b ==> s.actors[a].task.id != s.actors[b].task.id)
    && s.staged <= s.used && s.placed <= s.staged
  }

  lemma InitInv(s: State)
    requires Init(s)
    ensures Inv(s)
  {
  }

  /** What a step does not touch of another install stays valid. */
  lemma PcFrame(s: State, t: State, b: Actor, pc: Pc)
    requires PcOk(s, b, pc) && s.used <= t.used && s.staged <= t.staged && s.placed <= t.placed
    requires pc.task.scope in t.locks && t.locks[pc.task.scope] == b
    requires pc.task.id in t.operations ==> pc.task.id in s.operations && t.operations[pc.task.id] == s.operations[pc.task.id]
    requires pc.task.id in t.entries <==> pc.task.id in s.entries
    requires pc.task.id in t.entries ==> t.entries[pc.task.id] == s.entries[pc.task.id]
    ensures PcOk(t, b, pc)
  {
  }

  lemma EntryFrame(s: State, t: State, id: Id)
    requires EntryOk(s, id) && s.used <= t.used && s.staged <= t.staged && s.placed <= t.placed
    requires id in t.operations && t.operations[id] == s.operations[id]
    requires id in t.entries ==> id in s.entries && t.entries[id] == s.entries[id]
    ensures EntryOk(t, id)
  {
  }

  /** The journal untouched, one install moved or gone: only its own position needs a look. */
  lemma MoveInv(s: State, t: State, a: Actor)
    requires Inv(s) && a in s.actors
    requires t.entries == s.entries && t.operations == s.operations && t.used == s.used
    requires s.staged <= t.staged <= t.used && s.placed <= t.placed <= t.staged
    requires t.actors - {a} == s.actors - {a}
    requires forall scope :: scope in s.locks && s.locks[scope] != a ==> scope in t.locks && t.locks[scope] == s.locks[scope]
    requires a in t.actors ==> PcOk(t, a, t.actors[a]) && t.actors[a].task.id == s.actors[a].task.id
    ensures Inv(t)
  {
    hide EntryOk, PcOk;
    forall id | id in t.entries ensures EntryOk(t, id) {
      EntryFrame(s, t, id);
    }
    forall b | b in t.actors ensures PcOk(t, b, t.actors[b]) {
      if b != a {
        assert b in t.actors - {a};
        LockOf(s, b);
        PcFrame(s, t, b, t.actors[b]);
      }
    }
    forall b, c | b in t.actors && c in t.actors && b != c ensures t.actors[b].task.id != t.actors[c].task.id {
      assert b != a ==> b in t.actors - {a};
      assert c != a ==> c in t.actors - {a};
    }
  }

  lemma LockOf(s: State, a: Actor)
    requires a in s.actors && PcOk(s, a, s.actors[a])
    ensures s.actors[a].task.scope in s.locks && s.locks[s.actors[a].task.scope] == a
  {
  }

  lemma LeaveInv(s: State, a: Actor)
    requires Inv(s) && a in s.actors
    ensures Inv(Leave(s, a))
  {
    hide EntryOk, PcOk;
    LockOf(s, a);
    MoveInv(s, Leave(s, a), a);
  }

  /** A step forward that keeps the journal. */
  lemma GotoInv(s: State, a: Actor, phase: Phase)
    requires Inv(s) && a in s.actors && !phase.Locked? && !s.actors[a].phase.Locked?
    requires Late(phase) ==> s.actors[a].task.id in s.staged
    requires phase.Renamed? ==> s.actors[a].task.id in s.placed
    ensures Inv(Goto(s, a, phase))
  {
    hide EntryOk;
    MoveInv(s, Goto(s, a, phase), a);
  }

  lemma FreshIsUnrecorded(s: State, id: Id)
    requires Inv(s) && id !in s.used
    ensures id !in s.entries && id !in s.operations
    ensures forall b :: b in s.actors ==> s.actors[b].task.id != id
  {
    if id in s.entries {
      EntryIsUsed(s, id);
    }
    forall b | b in s.actors ensures s.actors[b].task.id != id {
      assert PcOk(s, b, s.actors[b]);
    }
  }

  lemma BeginInv(s: State, a: Actor, id: Id, scope: Scope, name: string, definition: Definition)
    requires Inv(s) && Enabled(s, Begin(a, id, scope, name, definition))
    ensures Inv(Begun(s, a, id, scope, name, definition))
  {
    hide EntryOk, PcOk;
    var t := Begun(s, a, id, scope, name, definition);
    FreshIsUnrecorded(s, id);
    forall k | k in t.entries ensures EntryOk(t, k) {
      EntryFrame(s, t, k);
    }
    forall b | b in t.actors && b != a ensures PcOk(t, b, t.actors[b]) {
      LockOf(s, b);
      PcFrame(s, t, b, t.actors[b]);
    }
    BeginsOk(s, a, id, scope, name, definition);
  }

  lemma BeginsOk(s: State, a: Actor, id: Id, scope: Scope, name: string, definition: Definition)
    requires Enabled(s, Begin(a, id, scope, name, definition)) && id !in s.entries && id !in s.operations
    ensures var t := Begun(s, a, id, scope, name, definition); PcOk(t, a, t.actors[a])
  {
  }

  lemma EntryIsUsed(s: State, id: Id)
    requires EntryOk(s, id)
    ensures id in s.used
  {
  }

  /** The journal entry of `a` is written. */
  lemma RecordedInv(s: State, a: Actor)
    requires Inv(s) && a in s.actors && Saves(s.actors[a].phase)
    ensures var t := Recorded(s, s.actors[a]);
            && t.entries.Keys == t.operations.Keys
            && (forall id :: id in t.entries ==> EntryOk(t, id))
            && (forall b :: b in t.actors && b != a ==> PcOk(t, b, t.actors[b]))
  {
    hide EntryOk, EntryAt, ProgressAt;
    var pc := s.actors[a];
    var t := Recorded(s, pc);
    assert PcOk(s, a, pc);
    forall id | id in t.entries ensures EntryOk(t, id) {
      if id == pc.task.id {
        OwnEntry(s, a);
      } else {
        EntryFrame(s, t, id);
      }
    }
    forall b | b in t.actors && b != a ensures PcOk(t, b, t.actors[b]) {
      PcFrame(s, t, b, t.actors[b]);
    }
  }

  lemma OwnEntry(s: State, a: Actor)
    requires Inv(s) && a in s.actors && Saves(s.actors[a].phase)
    ensures EntryOk(Recorded(s, s.actors[a]), s.actors[a].task.id)
  {
    assert PcOk(s, a, s.actors[a]);
  }

  lemma SaveInv(s: State, a: Actor, outcome: Outcome)
    requires Inv(s) && Enabled(s, Save(a, outcome))
    ensures Inv(AfterSave(s, a, outcome))
  {
    hide Inv, Recorded;
    var pc := s.actors[a];
    var next := Next(pc.phase, outcome.Saved?);
    LateIsStaged(s, a);
    if outcome.NotSaved? {
      if next.None? {
        LeaveInv(s, a);
      } else {
        NextIsOpen(pc.phase, outcome.Saved?);
        GotoInv(s, a, next.value);
      }
    } else if next.None? {
      RecordedThenLeaves(s, a);
    } else {
      RecordedThenMoves(s, a, outcome.Saved?);
    }
  }

  lemma RecordedThenLeaves(s: State, a: Actor)
    requires Inv(s) && a in s.actors && Saves(s.actors[a].phase)
    ensures Inv(Leave(Recorded(s, s.actors[a]), a))
  {
    hide EntryOk, PcOk, EntryAt, ProgressAt;
    RecordedInv(s, a);
    LockOf(s, a);
    var written := Recorded(s, s.actors[a]);
    var t := Leave(written, a);
    forall b | b in t.actors ensures PcOk(t, b, t.actors[b]) {
      LockOf(s, b);
      PcFrame(written, t, b, t.actors[b]);
    }
    forall id | id in t.entries ensures EntryOk(t, id) {
      EntryFrame(written, t, id);
    }
  }

  lemma RecordedThenMoves(s: State, a: Actor, ok: bool)
    requires Inv(s) && a in s.actors && Saves(s.actors[a].phase) && Next(s.actors[a].phase, ok).Some?
    ensures Inv(Goto(Recorded(s, s.actors[a]), a, Next(s.actors[a].phase, ok).value))
  {
    hide EntryOk, PcOk, EntryAt, ProgressAt, Next;
    RecordedInv(s, a);
    var written := Recorded(s, s.actors[a]);
    var t := Goto(written, a, Next(s.actors[a].phase, ok).value);
    forall b | b in t.actors && b != a ensures PcOk(t, b, t.actors[b]) {
      LockOf(s, b);
      PcFrame(written, t, b, t.actors[b]);
    }
    forall id | id in t.entries ensures EntryOk(t, id) {
      EntryFrame(written, t, id);
    }
    MovesOk(s, a, ok);
  }

  lemma MovesOk(s: State, a: Actor, ok: bool)
    requires Inv(s) && a in s.actors && Saves(s.actors[a].phase) && Next(s.actors[a].phase, ok).Some?
    ensures var t := Goto(Recorded(s, s.actors[a]), a, Next(s.actors[a].phase, ok).value); PcOk(t, a, t.actors[a])
  {
    hide EntryOk, Next, ProgressAt;
    assert PcOk(s, a, s.actors[a]);
    NextIsOpen(s.actors[a].phase, ok);
  }

  /** A save that the install survives is not its last word. */
  lemma NextIsOpen(phase: Phase, ok: bool)
    requires Next(phase, ok).Some?
    ensures !ProgressAt(phase).Committed? && !ProgressAt(phase).RetryRequired?
    ensures Late(Next(phase, ok).value) ==> Late(phase)
    ensures !Next(phase, ok).value.Locked? && !Next(phase, ok).value.Renamed?
  {
  }

  lemma PlacedInv(s: State, a: Actor, ok: bool)
    requires Inv(s) && Enabled(s, Rename(a, ok))
    ensures Inv(Placed(s, a, ok))
  {
    hide EntryOk;
    assert PcOk(s, a, s.actors[a]);
    MoveInv(s, Placed(s, a, ok), a);
  }

  lemma VerifiedInv(s: State, a: Actor)
    requires Inv(s) && Enabled(s, Verify(a))
    ensures Inv(Verified(s, a))
  {
    hide EntryOk, ConfigOf;
    assert PcOk(s, a, s.actors[a]);
    var t := s.actors[a].task;
    if ConfigOf(s, t.scope) == t.previous {
      MoveInv(s, Verified(s, a), a);
    } else {
      GotoInv(s, a, RollBack(s.actors[a].phase));
    }
  }

  lemma StepInv(s: State, e: Event)
    requires Inv(s) && Enabled(s, e)
    ensures Inv(Apply(s, e))
  {
    hide Inv;
    match e {
      case Begin(a, id, scope, name, definition) => BeginInv(s, a, id, scope, name, definition);
      case Save(a, outcome) => SaveInv(s, a, outcome);
      case Prepare(a) => UnchangedInv(s, a, Resolved);
      case Verify(a) => VerifiedInv(s, a);
      case Check(a) => LateIsStaged(s, a); UnchangedInv(s, a, Checked);
      case Rename(a, ok) => PlacedInv(s, a, ok);
      case Error(a) => FailedInv(s, a);
      case Crash(a) => LeaveInv(s, a);
      case Edit(scope, config) => EditInv(s, scope, config);
    }
  }

  lemma LateIsStaged(s: State, a: Actor)
    requires Inv(s) && a in s.actors
    ensures Late(s.actors[a].phase) ==> s.actors[a].task.id in s.staged
  {
    assert PcOk(s, a, s.actors[a]);
  }

  lemma UnchangedInv(s: State, a: Actor, phase: Phase)
    requires Inv(s) && a in s.actors && !phase.Locked? && !phase.Renamed? && !s.actors[a].phase.Locked?
    requires Late(phase) ==> s.actors[a].task.id in s.staged
    ensures Inv(IfUnchanged(s, a, phase))
  {
    hide Inv, ConfigOf;
    GotoInv(s, a, phase);
    GotoInv(s, a, RollBack(s.actors[a].phase));
  }

  lemma FailedInv(s: State, a: Actor)
    requires Inv(s) && a in s.actors
    ensures Inv(Failed(s, a))
  {
    hide Inv;
    var phase := s.actors[a].phase;
    if phase.Locked? || phase.Renamed? || phase.RollingBack? {
      LeaveInv(s, a);
    } else {
      GotoInv(s, a, RollBack(s.actors[a].phase));
    }
  }

  lemma EditInv(s: State, scope: Scope, config: Config)
    requires Inv(s)
    ensures Inv(s.(configs := s.configs[scope := config]))
  {
    hide EntryOk, PcOk;
    var t := s.(configs := s.configs[scope := config]);
    forall id | id in t.entries ensures EntryOk(t, id) {
      EntryFrame(s, t, id);
    }
    forall b | b in t.actors ensures PcOk(t, b, t.actors[b]) {
      LockOf(s, b);
      PcFrame(s, t, b, t.actors[b]);
    }
  }

  lemma RunStepInv(states: seq<State>, events: seq<Event>, i: nat)
    requires Run(states, events) && i < |events| && Inv(states[i])
    ensures Inv(states[i + 1])
  {
    hide Inv, Apply, Enabled;
    StepInv(states[i], events[i]);
  }

  lemma {:induction false} RunInv(states: seq<State>, events: seq<Event>, i: nat)
    requires Run(states, events) && i < |states|
    ensures Inv(states[i])
  {
    hide Inv, Apply, Enabled, Init;
    if i == 0 {
      InitInv(states[0]);
    } else {
      RunInv(states, events, i - 1);
      RunStepInv(states, events, i - 1);
    }
  }

  // ---------------------------------------------------------------- theorems

  /**
   What the launch guard lets start was staged and resolved, and either its
   configuration was put in place, or the configuration is now what it staged.
   */
  lemma LaunchAcceptsOnlyFinished(states: seq<State>, events: seq<Event>, i: nat, scope: Scope, name: string, id: Id)
    requires Run(states, events) && i < |states| && Launches(states[i], scope, name, id)
    ensures id in states[i].entries && id in states[i].staged && states[i].entries[id].resolved
    ensures name in states[i].entries[id].digest
    ensures id in states[i].placed || ConfigOf(states[i], scope) == states[i].entries[id].digest
  {
    RunInv(states, events, i);
    assert id in Candidates(states[i], scope, name);
    assert EntryOk(states[i], id);
  }

  /** Step `k` is this install's rename, or its last check before registering. */
  ghost predicate Acts(s: State, e: Event, id: Id, rename: bool) {
    Enabled(s, e) && (if rename then e.Rename? else e.Verify?) && e.actor in s.actors && s.actors[e.actor].task.id == id
  }

  lemma StepPlaces(s: State, e: Event, id: Id)
    requires Enabled(s, e)
    ensures id in Apply(s, e).placed && id !in s.placed ==> Acts(s, e, id, true)
    ensures id in Apply(s, e).staged && id !in s.staged ==>
              && Acts(s, e, id, false)
              && ConfigOf(s, s.actors[e.actor].task.scope) == s.actors[e.actor].task.previous
  {
  }

  /** Only saves write the journal, and only their own entry. */
  lemma JournalAfter(s: State, e: Event)
    requires Enabled(s, e)
    ensures var t := Apply(s, e);
            && (!e.Save? || e.outcome.NotSaved? ==> t.entries == s.entries && t.operations == s.operations)
            && (e.Save? && !e.outcome.NotSaved? ==>
                  && t.entries == s.entries[s.actors[e.actor].task.id := EntryAt(s.actors[e.actor])]
                  && t.operations == s.operations[s.actors[e.actor].task.id := ProgressAt(s.actors[e.actor].phase)])
  {
    hide EntryAt, ProgressAt, Next;
  }

  lemma StepKeepsEntry(s: State, e: Event, id: Id)
    requires Inv(s) && Enabled(s, e) && id in s.entries
    ensures var t := Apply(s, e);
            && id in t.entries && t.entries[id].scope == s.entries[id].scope && t.entries[id].name == s.entries[id].name
            && t.entries[id].digest == s.entries[id].digest
  {
    hide EntryOk, Apply;
    JournalAfter(s, e);
    if e.Save? {
      assert PcOk(s, e.actor, s.actors[e.actor]);
    }
  }

  lemma {:induction false} EntryIsFixed(states: seq<State>, events: seq<Event>, i: nat, j: nat, id: Id)
    requires Run(states, events) && i <= j < |states| && id in states[i].entries
    ensures id in states[j].entries && states[j].entries[id].scope == states[i].entries[id].scope
    ensures states[j].entries[id].name == states[i].entries[id].name
    ensures states[j].entries[id].digest == states[i].entries[id].digest
    decreases j
  {
    hide Inv, Apply, Enabled;
    if i < j {
      EntryIsFixed(states, events, i, j - 1, id);
      RunInv(states, events, j - 1);
      StepKeepsEntry(states[j - 1], events[j - 1], id);
    }
  }

  /** An install counts as placed only since its rename put exactly what it staged into the configuration. */
  lemma {:induction false} PlacedWasRenamed(states: seq<State>, events: seq<Event>, i: nat, id: Id) returns (k: nat)
    requires Run(states, events) && i < |states| && id in states[i].placed
    ensures k < i && Acts(states[k], events[k], id, true) && id in states[i].entries
    ensures ConfigOf(states[k + 1], states[i].entries[id].scope) == states[i].entries[id].digest
    decreases i
  {
    hide Inv, Apply, Acts;
    InitPlacesNothing(states, events);
    if id in states[i - 1].placed {
      k := PlacedWasRenamed(states, events, i - 1, id);
      EntryIsFixed(states, events, i - 1, i, id);
    } else {
      k := i - 1;
      StepPlaces(states[k], events[k], id);
      RunInv(states, events, k);
      RenamePlaces(states[k], events[k], id);
    }
  }

  /** An install counts as staged only since its verification found the configuration as it was locked. */
  lemma {:induction false} StagedWasVerified(states: seq<State>, events: seq<Event>, i: nat, id: Id) returns (k: nat)
    requires Run(states, events) && i < |states| && id in states[i].staged
    ensures k < i && Acts(states[k], events[k], id, false)
    ensures var t := states[k].actors[events[k].actor].task; ConfigOf(states[k], t.scope) == t.previous
    decreases i
  {
    hide Inv, Apply, Acts;
    InitPlacesNothing(states, events);
    if id in states[i - 1].staged {
      k := StagedWasVerified(states, events, i - 1, id);
    } else {
      k := i - 1;
      StepPlaces(states[k], events[k], id);
    }
    ActsHere(states[k], events[k], id);
  }

  lemma ActsHere(s: State, e: Event, id: Id)
    ensures Acts(s, e, id, false) ==> e.Verify? && e.actor in s.actors
  {
  }

  lemma InitPlacesNothing(states: seq<State>, events: seq<Event>)
    requires Run(states, events)
    ensures states[0].placed == {} && states[0].staged == {}
  {
  }

  lemma RenamePlaces(s: State, e: Event, id: Id)
    requires Inv(s) && Acts(s, e, id, true)
    ensures var t := Apply(s, e);
            id in t.entries && ConfigOf(t, t.entries[id].scope) == t.entries[id].digest
  {
    assert PcOk(s, e.actor, s.actors[e.actor]);
  }

  /** An install whose rollback is recorded is over: its entry stays unregistered and never changes again. */
  lemma StepKeepsRollback(s: State, e: Event, id: Id)
    requires Inv(s) && Enabled(s, e) && id in s.operations && s.operations[id].RetryRequired?
    ensures var t := Apply(s, e);
            id in s.entries && id in t.entries && t.entries[id] == s.entries[id]
            && id in t.operations && t.operations[id] == s.operations[id] && s.entries[id].registration.Unregistered?
  {
    hide Apply, EntryAt;
    assert EntryOk(s, id);
    JournalAfter(s, e);
    if e.Save? {
      assert PcOk(s, e.actor, s.actors[e.actor]);
    }
  }

  lemma {:induction false} RolledBackNeverLaunches(
    states: seq<State>, events: seq<Event>, i: nat, j: nat, id: Id, scope: Scope, name: string)
    requires Run(states, events) && i <= j < |states|
    requires id in states[i].operations && states[i].operations[id].RetryRequired?
    ensures id in states[j].operations && states[j].operations[id].RetryRequired?
    ensures !Launches(states[j], scope, name, id)
    decreases j
  {
    hide Inv, Apply, Enabled;
    if i < j {
      RolledBackNeverLaunches(states, events, i, j - 1, id, scope, name);
      RunInv(states, events, j - 1);
      StepKeepsRollback(states[j - 1], events[j - 1], id);
    }
    RunInv(states, events, j);
    RolledBackIsNoCandidate(states[j], scope, name, id);
  }

  lemma RolledBackIsNoCandidate(s: State, scope: Scope, name: string, id: Id)
    requires Inv(s) && id in s.operations && s.operations[id].RetryRequired?
    ensures !Launches(s, scope, name, id)
  {
    assert EntryOk(s, id);
    assert id !in Candidates(s, scope, name);
    assert id in {id};
  }

  /** With two registered entries for one scope and name, nothing starts. */
  lemma TwoRegisteredRefused(s: State, scope: Scope, name: string, id: Id, one: Id, two: Id)
    requires one != two && Matches(s, one, scope, name) && Matches(s, two, scope, name)
    ensures !Launches(s, scope, name, id)
  {
    assert one in Candidates(s, scope, name) && two in Candidates(s, scope, name);
    assert one in {id} ==> two !in {id};
  }

  // ------------------------------------------------- an install left in peace

  /** The steps of an install up to its registration in the journal, when nothing disturbs it. */
  function RegisterEvents(a: Actor, id: Id, scope: Scope, name: string, definition: Definition): seq<Event> {
    [Begin(a, id, scope, name, definition), Save(a, Saved), Save(a, Saved), Prepare(a), Save(a, Saved), Verify(a),
     Save(a, Saved)]
  }

  /** And the steps that put its configuration in place. */
  function PlaceEvents(a: Actor): seq<Event> {
    [Check(a), Rename(a, true), Save(a, Saved)]
  }

  ghost predicate Reaches(s: State, events: seq<Event>, t: State)
    decreases |events|
  {
    if events == [] then s == t else Enabled(s, events[0]) && Reaches(Apply(s, events[0]), events[1..], t)
  }

  lemma {:induction false} ReachesOn(s: State, events: seq<Event>, t: State, e: Event)
    requires Reaches(s, events, t) && Enabled(t, e)
    ensures Reaches(s, events + [e], Apply(t, e))
    decreases |events|
  {
    hide Enabled, Apply;
    if events == [] {
      assert events + [e] == [e] && [e][1..] == [];
    } else {
      assert (events + [e])[0] == events[0] && (events + [e])[1..] == events[1..] + [e];
      ReachesOn(Apply(s, events[0]), events[1..], t, e);
    }
  }

  /** `a` is in the middle of its install, the rest is as in `s`. */
  ghost function Amid(
    s: State, a: Actor, t: Task, phase: Phase, entries: map<Id, Entry>, operations: map<Id, Progress>,
    configs: map<Scope, Config>, staged: set<Id>, placed: set<Id>): State
  {
    State(configs, s.locks[t.scope := a], entries, operations, s.actors[a := Pc(t, phase)], s.used + {t.id}, staged, placed)
  }

  function TaskOf(s: State, id: Id, scope: Scope, name: string, definition: Definition): Task {
    Task(id, scope, name, ConfigOf(s, scope), ConfigOf(s, scope)[name := definition])
  }

  function EntryOf(t: Task, registration: Registration, resolved: bool): Entry {
    Entry(t.scope, t.name, registration, t.staged, resolved)
  }

  lemma GotoAmid(s: State, a: Actor, t: Task, phase: Phase, next: Phase)
    ensures s.actors[a := Pc(t, phase)][a := Pc(t, next)] == s.actors[a := Pc(t, next)]
  {
  }

  /** A save in the middle: the journal entry is replaced. */
  lemma SaveAmid(
    s: State, a: Actor, t: Task, phase: Phase, entries: map<Id, Entry>, operations: map<Id, Progress>,
    configs: map<Scope, Config>, staged: set<Id>, placed: set<Id>)
    requires Saves(phase) && Next(phase, true).Some?
    ensures var now := Amid(s, a, t, phase, entries, operations, configs, staged, placed);
            Enabled(now, Save(a, Saved)) && Apply(now, Save(a, Saved)) ==
              Amid(s, a, t, Next(phase, true).value,
                   entries[t.id := EntryAt(Pc(t, phase))], operations[t.id := ProgressAt(phase)], configs, staged, placed)
  {
    GotoAmid(s, a, t, phase, Next(phase, true).value);
  }

  /** A check in the middle, with the configuration as it was locked. */
  lemma CheckAmid(
    s: State, a: Actor, t: Task, phase: Phase, entries: map<Id, Entry>, operations: map<Id, Progress>, staged: set<Id>)
    requires phase in {ApplyingSaved, ResolvedSaved, RegisteredSaved} && t.previous == ConfigOf(s, t.scope)
    ensures var now := Amid(s, a, t, phase, entries, operations, s.configs, staged, s.placed);
            var e := if phase.ApplyingSaved? then Prepare(a) else if phase.ResolvedSaved? then Verify(a) else Check(a);
            var next := if phase.ApplyingSaved? then Resolved else if phase.ResolvedSaved? then Staged else Checked;
            Enabled(now, e) && Apply(now, e) ==
              Amid(s, a, t, next, entries, operations, s.configs,
                   if phase.ResolvedSaved? then staged + {t.id} else staged, s.placed)
  {
    GotoAmid(s, a, t, phase, Resolved);
    GotoAmid(s, a, t, phase, Staged);
    GotoAmid(s, a, t, phase, Checked);
  }

  lemma RenameAmid(s: State, a: Actor, t: Task, entries: map<Id, Entry>, operations: map<Id, Progress>, staged: set<Id>)
    ensures var now := Amid(s, a, t, Checked, entries, operations, s.configs, staged, s.placed);
            Enabled(now, Rename(a, true)) && Apply(now, Rename(a, true)) ==
              Amid(s, a, t, Renamed, entries, operations, s.configs[t.scope := t.staged], staged, s.placed + {t.id})
  {
    GotoAmid(s, a, t, Checked, Renamed);
  }

  lemma Overwrite<T>(m: map<Id, T>, id: Id, one: T, two: T)
    ensures m[id := one][id := two] == m[id := two]
  {
  }

  /** The install up to its preparation. */
  lemma InstallPrepares(s: State, a: Actor, id: Id, scope: Scope, name: string, definition: Definition)
    returns (events: seq<Event>, t: State)
    requires Enabled(s, Begin(a, id, scope, name, definition))
    ensures events == RegisterEvents(a, id, scope, name, definition)[..4] && Reaches(s, events, t)
    ensures var task := TaskOf(s, id, scope, name, definition);
            t == Amid(s, a, task, Resolved, s.entries[id := EntryOf(task, Unregistered, false)],
                      s.operations[id := Applying], s.configs, s.staged, s.placed)
  {
    hide Enabled, Apply, Amid, EntryAt;
    var task := TaskOf(s, id, scope, name, definition);
    var entry := EntryOf(task, Unregistered, false);
    BeginsAmid(s, a, id, scope, name, definition);
    Entries(task);
    Overwrite(s.entries, id, entry, entry);
    Overwrite(s.operations, id, Prepared, Applying);
    SaveAmid(s, a, task, Locked, s.entries, s.operations, s.configs, s.staged, s.placed);
    SaveAmid(s, a, task, PreparedSaved, s.entries[id := entry], s.operations[id := Prepared], s.configs, s.staged, s.placed);
    CheckAmid(s, a, task, ApplyingSaved, s.entries[id := entry], s.operations[id := Applying], s.staged);
    events, t := Then(s, [], s, Begin(a, id, scope, name, definition));
    events, t := Then(s, events, t, Save(a, Saved));
    events, t := Then(s, events, t, Save(a, Saved));
    events, t := Then(s, events, t, Prepare(a));
  }

  /** The install up to its registration in the journal. */
  lemma InstallRegisters(s: State, a: Actor, id: Id, scope: Scope, name: string, definition: Definition)
    returns (events: seq<Event>, t: State)
    requires Enabled(s, Begin(a, id, scope, name, definition))
    ensures events == RegisterEvents(a, id, scope, name, definition) && Reaches(s, events, t)
    ensures var task := TaskOf(s, id, scope, name, definition);
            t == Amid(s, a, task, RegisteredSaved, s.entries[id := EntryOf(task, Registered, true)],
                      s.operations[id := Applying], s.configs, s.staged + {id}, s.placed)
  {
    hide Apply, Amid, EntryAt, Reaches;
    var task := TaskOf(s, id, scope, name, definition);
    events, t := InstallPrepares(s, a, id, scope, name, definition);
    hide Enabled;
    Entries(task);
    var e1, e2, e3 :=
      EntryOf(task, Unregistered, false), EntryOf(task, Unregistered, true), EntryOf(task, Registered, true);
    var operations := s.operations[id := Applying];
    Overwrite(s.entries, id, e1, e2);
    Overwrite(s.entries, id, e2, e3);
    Overwrite(s.operations, id, Applying, Applying);
    SaveAmid(s, a, task, Resolved, s.entries[id := e1], operations, s.configs, s.staged, s.placed);
    CheckAmid(s, a, task, ResolvedSaved, s.entries[id := e2], operations, s.staged);
    SaveAmid(s, a, task, Staged, s.entries[id := e2], operations, s.configs, s.staged + {id}, s.placed);
    events, t := Then(s, events, t, Save(a, Saved));
    events, t := Then(s, events, t, Verify(a));
    events, t := Then(s, events, t, Save(a, Saved));
  }

  lemma Then(s: State, before: seq<Event>, t: State, e: Event) returns (events: seq<Event>, u: State)
    requires Reaches(s, before, t) && Enabled(t, e)
    ensures events == before + [e] && u == Apply(t, e) && Reaches(s, events, u)
  {
    ReachesOn(s, before, t, e);
    events, u := before + [e], Apply(t, e);
  }

  lemma BeginsAmid(s: State, a: Actor, id: Id, scope: Scope, name: string, definition: Definition)
    requires Enabled(s, Begin(a, id, scope, name, definition))
    ensures Reaches(s, [], s)
    ensures Apply(s, Begin(a, id, scope, name, definition)) ==
            Amid(s, a, TaskOf(s, id, scope, name, definition), Locked, s.entries, s.operations, s.configs, s.staged, s.placed)
  {
  }

  lemma Entries(t: Task)
    ensures EntryAt(Pc(t, Locked)) == EntryAt(Pc(t, PreparedSaved)) == EntryOf(t, Unregistered, false)
    ensures EntryAt(Pc(t, Resolved)) == EntryOf(t, Unregistered, true)
    ensures EntryAt(Pc(t, Staged)) == EntryAt(Pc(t, Renamed)) == EntryOf(t, Registered, true)
  {
  }

  /** Who was registered for this scope and name before, and the new entry. */
  lemma CandidatesAfter(s: State, t: State, id: Id, task: Task)
    requires id !in s.entries && t.entries == s.entries[id := EntryOf(task, Registered, true)]
    ensures Candidates(t, task.scope, task.name) == Candidates(s, task.scope, task.name) + {id}
  {
  }

  /**
   An undisturbed install puts its configuration in place and is let start, unless
   another entry was already registered for that scope and name.
   */
  lemma InstallCompletes(s: State, a: Actor, id: Id, scope: Scope, name: string, definition: Definition)
    returns (t: State)
    requires Enabled(s, Begin(a, id, scope, name, definition)) && id !in s.entries
    ensures Reaches(s, RegisterEvents(a, id, scope, name, definition) + PlaceEvents(a), t)
    ensures ConfigOf(t, scope) == ConfigOf(s, scope)[name := definition] && t.actors == s.actors && t.locks == s.locks
    ensures Candidates(t, scope, name) == Candidates(s, scope, name) + {id}
    ensures Launches(t, scope, name, id) <==> Candidates(s, scope, name) == {}
  {
    hide Apply, Amid, Reaches, Candidates;
    var task := TaskOf(s, id, scope, name, definition);
    assert a !in s.actors && scope !in s.locks;
    hide Enabled;
    var events;
    events, t := InstallRegisters(s, a, id, scope, name, definition);
    var first := events;
    var entries := s.entries[id := EntryOf(task, Registered, true)];
    var operations := s.operations[id := Applying];
    CheckAmid(s, a, task, RegisteredSaved, entries, operations, s.staged + {id});
    RenameAmid(s, a, task, entries, operations, s.staged + {id});
    events, t := Then(s, events, t, Check(a));
    events, t := Then(s, events, t, Rename(a, true));
    Commits(s, a, task);
    events, t := Then(s, events, t, Save(a, Saved));
    assert events == first + PlaceEvents(a);
    CandidatesAfter(s, t, id, task);
    NotACandidate(s, id, scope, name);
    assert Candidates(s, scope, name) + {id} == {id} <==> Candidates(s, scope, name) == {};
  }

  lemma NotACandidate(s: State, id: Id, scope: Scope, name: string)
    requires id !in s.entries
    ensures id !in Candidates(s, scope, name)
  {
  }

  lemma Commits(s: State, a: Actor, task: Task)
    requires a !in s.actors && task.scope !in s.locks
    ensures var entries := s.entries[task.id := EntryOf(task, Registered, true)];
            var configs := s.configs[task.scope := task.staged];
            var renamed := Amid(s, a, task, Renamed, entries, s.operations[task.id := Applying], configs,
                                s.staged + {task.id}, s.placed + {task.id});
            Enabled(renamed, Save(a, Saved)) && Apply(renamed, Save(a, Saved)) ==
              State(configs, s.locks, entries, s.operations[task.id := Committed], s.actors, s.used + {task.id},
                    s.staged + {task.id}, s.placed + {task.id})
  {
    Entries(task);
    var entries := s.entries[task.id := EntryOf(task, Registered, true)];
    assert entries[task.id := EntryOf(task, Registered, true)] == entries;
    assert s.operations[task.id := Applying][task.id := Committed] == s.operations[task.id := Committed];
    assert s.locks[task.scope := a] - {task.scope} == s.locks;
    assert s.actors[a := Pc(task, Renamed)] - {a} == s.actors;
  }

  /**
   A crash between the registration in the journal and the change of the
   configuration leaves a registered entry behind; reinstalling the same server
   then goes through, and nothing is let start.
   */
  lemma ReinstallAfterCrashIsRefused(
    s: State, a: Actor, one: Id, two: Id, scope: Scope, name: string, definition: Definition)
    returns (t: State, u: State)
    requires Enabled(s, Begin(a, one, scope, name, definition)) && one !in s.entries
    requires two !in s.used && two != one && two !in s.entries
    ensures Reaches(s, RegisterEvents(a, one, scope, name, definition) + [Crash(a)], t)
    ensures Reaches(t, RegisterEvents(a, two, scope, name, definition) + PlaceEvents(a), u)
    ensures ConfigOf(u, scope) == ConfigOf(s, scope)[name := definition]
    ensures forall id :: !Launches(u, scope, name, id)
  {
    hide Reaches, Candidates;
    var task := TaskOf(s, one, scope, name, definition);
    var events, registered := InstallRegisters(s, a, one, scope, name, definition);
    Crashed(s, a, task);
    var all;
    all, t := Then(s, events, registered, Crash(a));
    CandidatesAfter(s, t, one, task);
    assert one in Candidates(t, scope, name);
    u := InstallCompletes(t, a, two, scope, name, definition);
    forall id: Id ensures !Launches(u, scope, name, id) {
      assert one in Candidates(u, scope, name) && two in Candidates(u, scope, name);
      assert one in {id} ==> two !in {id};
    }
  }

  lemma Crashed(s: State, a: Actor, task: Task)
    requires a !in s.actors && task.scope !in s.locks
    ensures var entries := s.entries[task.id := EntryOf(task, Registered, true)];
            var operations := s.operations[task.id := Applying];
            var registered := Amid(s, a, task, RegisteredSaved, entries, operations, s.configs, s.staged + {task.id}, s.placed);
            Enabled(registered, Crash(a)) && Apply(registered, Crash(a)) ==
              State(s.configs, s.locks, entries, operations, s.actors, s.used + {task.id}, s.staged + {task.id}, s.placed)
  {
    assert s.locks[task.scope := a] - {task.scope} == s.locks;
    assert s.actors[a := Pc(task, RegisteredSaved)] - {a} == s.actors;
  }

  // ------------------------------------------------------ what is let start

  /** The entry is registered for exactly this scope and name. */
  predicate RegisteredFor(e: Entry, scope: Scope, name: string) {
    e.registration == Registered && e.scope == scope && e.name == name
  }

  /**
   A server is let start with an entry if and only if that entry, and no other, is
   registered for its scope and name, and the install is committed, or has no record
   of its progress, or staged just what the configuration now is.
   */
  lemma LaunchesIff(s: State, scope: Scope, name: string, id: Id)
    ensures Launches(s, scope, name, id) <==>
            && id in s.entries && RegisteredFor(s.entries[id], scope, name)
            && (forall other :: other in s.entries && other != id ==> !RegisteredFor(s.entries[other], scope, name))
            && (id !in s.operations || s.operations[id] == Committed
                || s.entries[id].digest == (if scope in s.configs then s.configs[scope] else map[]))
  {
    var all := Candidates(s, scope, name);
    if all == {id} {
      assert id in all;
      forall other | other in s.entries && other != id ensures !RegisteredFor(s.entries[other], scope, name) {
        assert other !in all;
      }
    }
    if id in s.entries && RegisteredFor(s.entries[id], scope, name)
       && forall other :: other in s.entries && other != id ==> !RegisteredFor(s.entries[other], scope, name) {
      assert all == {id};
    }
  }

  /**
   An install that crashed between the change of the configuration and its last save
   is let start all the same, unless another entry was registered for that scope and
   name before; so it is until someone edits that configuration.
   */
  lemma LaunchesAfterLateCrash(
    s: State, a: Actor, id: Id, scope: Scope, name: string, definition: Definition, config: Config)
    returns (t: State)
    requires Enabled(s, Begin(a, id, scope, name, definition)) && id !in s.entries
    ensures Reaches(s, RegisterEvents(a, id, scope, name, definition) + [Check(a), Rename(a, true), Crash(a)], t)
    ensures id in t.operations && t.operations[id] == Applying && t.actors == s.actors && t.locks == s.locks
    ensures Launches(t, scope, name, id) <==> Candidates(s, scope, name) == {}
    ensures var edited := Apply(t, Edit(scope, config));
            Launches(edited, scope, name, id) <==>
              Candidates(s, scope, name) == {} && config == ConfigOf(s, scope)[name := definition]
  {
    hide Apply, Amid, Reaches, Candidates;
    var task := TaskOf(s, id, scope, name, definition);
    assert a !in s.actors && scope !in s.locks;
    hide Enabled;
    var events;
    events, t := InstallRegisters(s, a, id, scope, name, definition);
    var first := events;
    var entries := s.entries[id := EntryOf(task, Registered, true)];
    var operations := s.operations[id := Applying];
    CheckAmid(s, a, task, RegisteredSaved, entries, operations, s.staged + {id});
    RenameAmid(s, a, task, entries, operations, s.staged + {id});
    events, t := Then(s, events, t, Check(a));
    events, t := Then(s, events, t, Rename(a, true));
    LateCrash(s, a, task, config);
    events, t := Then(s, events, t, Crash(a));
    assert events == first + [Check(a), Rename(a, true), Crash(a)];
    var edited := Apply(t, Edit(scope, config));
    CandidatesAfter(s, t, id, task);
    CandidatesAfter(s, edited, id, task);
    NotACandidate(s, id, scope, name);
    assert Candidates(s, scope, name) + {id} == {id} <==> Candidates(s, scope, name) == {};
  }

  lemma LateCrash(s: State, a: Actor, task: Task, config: Config)
    requires a !in s.actors && task.scope !in s.locks
    ensures var entries := s.entries[task.id := EntryOf(task, Registered, true)];
            var operations := s.operations[task.id := Applying];
            var configs := s.configs[task.scope := task.staged];
            var renamed := Amid(s, a, task, Renamed, entries, operations, configs,
                                s.staged + {task.id}, s.placed + {task.id});
            var crashed := State(configs, s.locks, entries, operations, s.actors, s.used + {task.id},
                                 s.staged + {task.id}, s.placed + {task.id});
            && Enabled(renamed, Crash(a)) && Apply(renamed, Crash(a)) == crashed
            && Enabled(crashed, Edit(task.scope, config))
            && Apply(crashed, Edit(task.scope, config)) == crashed.(configs := configs[task.scope := config])
  {
    assert s.locks[task.scope := a] - {task.scope} == s.locks;
    assert s.actors[a := Pc(task, Renamed)] - {a} == s.actors;
  }

  // --------------------------------------------- what a rename replaces

  ghost predicate AtChecked(s: State, a: Actor, t: Task) {
    a in s.actors && s.actors[a] == Pc(t, Checked)
  }

  /** Only a rename and an outside edit change a configuration. */
  lemma ConfigsAfter(s: State, e: Event)
    requires Enabled(s, e)
    ensures e.Rename? ==>
              Apply(s, e).configs == s.configs[s.actors[e.actor].task.scope := s.actors[e.actor].task.staged]
    ensures !e.Rename? && !e.Edit? ==> Apply(s, e).configs == s.configs
  {
    hide EntryAt, ProgressAt, Next;
  }

  /** Only a check that found the configuration unchanged leads to a rename. */
  lemma CheckedByCheck(s: State, e: Event, a: Actor, t: Task)
    requires Enabled(s, e) && AtChecked(Apply(s, e), a, t)
    ensures AtChecked(s, a, t) || (e == Check(a) && ConfigOf(s, t.scope) == t.previous)
    ensures e.Rename? ==> e.actor != a
  {
    hide EntryAt, ProgressAt, ConfigOf;
  }

  lemma OthersRename(s: State, a: Actor, b: Actor)
    requires Inv(s) && a in s.actors && b in s.actors && a != b
    ensures s.actors[a].task.scope != s.actors[b].task.scope
  {
    assert PcOk(s, a, s.actors[a]) && PcOk(s, b, s.actors[b]);
  }

  lemma StepChecks(s: State, e: Event, a: Actor, t: Task)
    requires Inv(s) && Enabled(s, e) && AtChecked(Apply(s, e), a, t)
    ensures AtChecked(s, a, t) || e == Check(a)
    ensures !AtChecked(s, a, t) ==> ConfigOf(s, t.scope) == t.previous && ConfigOf(Apply(s, e), t.scope) == t.previous
    ensures AtChecked(s, a, t) && !(e.Edit? && e.scope == t.scope) ==>
              ConfigOf(Apply(s, e), t.scope) == ConfigOf(s, t.scope)
  {
    CheckedByCheck(s, e, a, t);
    ConfigsAfter(s, e);
    if AtChecked(s, a, t) && e.Rename? {
      OthersRename(s, a, e.actor);
    }
    hide Inv, Enabled;
    if e.Edit? {
      assert Apply(s, e).configs == s.configs[e.scope := e.config];
    }
    hide Apply;
  }

  /**
   A rename follows a check of the same install that found the configuration as it
   was locked; if nobody edited that configuration since, it replaces exactly that.
   */
  lemma {:induction false} RenameWasChecked(states: seq<State>, events: seq<Event>, i: nat, a: Actor, t: Task) returns (h: nat)
    requires Run(states, events) && i < |states| && AtChecked(states[i], a, t)
    ensures h < i && events[h] == Check(a) && ConfigOf(states[h], t.scope) == t.previous
    ensures (forall k :: h < k < i ==> !(events[k].Edit? && events[k].scope == t.scope)) ==>
              ConfigOf(states[i], t.scope) == t.previous
    decreases i
  {
    hide Inv, Apply, Enabled, AtChecked, ConfigOf, Init;
    if i == 0 {
      assert false by { NobodyChecked(states[0], a, t); }
    } else {
      RunInv(states, events, i - 1);
      StepChecks(states[i - 1], events[i - 1], a, t);
      if AtChecked(states[i - 1], a, t) {
        h := RenameWasChecked(states, events, i - 1, a, t);
      } else {
        h := i - 1;
      }
    }
  }

  lemma NobodyChecked(s: State, a: Actor, t: Task)
    requires Init(s)
    ensures !AtChecked(s, a, t)
  {
  }
}
