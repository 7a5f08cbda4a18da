/**
 The install transaction and the launch guard (src/supervisor/manager/install.rs,
 src/install/target.rs, src/install/records.rs, src/supervisor/launch.rs).

 The ownership journal and a scope's configuration file are two objects, each
 committed atomically by itself. An install may fail or crash between any two
 steps, a journal update may report failure although it was written, and others
 may edit a configuration file at any moment. A configuration is known by its
 contents, as the program knows it by a digest of them.
 */
module Install {
  import opened Common

  type Actor = nat
  type Id = nat
  type Scope = nat
  type Definition = nat
  type Config = map<string, Definition>

  datatype Registration = Registered | Unregistered

  datatype Entry = Entry(scope: Scope, name: string, registration: Registration, digest: Config, resolved: bool)

  datatype Progress = Prepared | Applying | Committed | RetryRequired

  /** One install: `previous` is what the configuration held when it was locked, `staged` what it shall hold. */
  datatype Task = Task(id: Id, scope: Scope, name: string, previous: Config, staged: Config)

  datatype Phase =
    | Locked            // nothing recorded yet
    | PreparedSaved
    | ApplyingSaved
    | Resolved          // prepared, resolution not recorded yet
    | ResolvedSaved
    | Staged            // verified
    | RegisteredSaved
    | Checked           // the configuration was unchanged just now
    | Renamed           // the configuration is replaced
    | RollingBack(resolved: bool)

  datatype Pc = Pc(task: Task, phase: Phase)

  datatype State = State(
    configs: map<Scope, Config>,
    locks: map<Scope, Actor>,
    entries: map<Id, Entry>,
    operations: map<Id, Progress>,
    actors: map<Actor, Pc>,
    used: set<Id>,
    // History, never read by a step: installs whose staging finished, and whose
    // configuration was put in place.
    staged: set<Id>,
    placed: set<Id>)

  /** How a journal update ends. */
  datatype Outcome = Saved | SavedThenFailed | NotSaved

  datatype Event =
    | Begin(actor: Actor, id: Id, scope: Scope, name: string, definition: Definition)
    | Save(actor: Actor, outcome: Outcome)
    | Prepare(actor: Actor)
    | Verify(actor: Actor)
    | Check(actor: Actor)
    | Rename(actor: Actor, ok: bool)
    | Error(actor: Actor)
    | Crash(actor: Actor)
    | Edit(scope: Scope, config: Config)

  function ConfigOf(s: State, scope: Scope): Config {
    if scope in s.configs then s.configs[scope] else map[]
  }

  // ------------------------------------------------------------------ steps

  predicate Saves(phase: Phase) {
    phase.Locked? || phase.PreparedSaved? || phase.Resolved? || phase.Staged? || phase.Renamed? || phase.RollingBack?
  }

  predicate At(s: State, a: Actor, phase: Phase) {
    a in s.actors && s.actors[a].phase == phase
  }

  predicate Enabled(s: State, e: Event) {
    match e
    case Begin(a, id, scope, name, _) =>
      a !in s.actors && scope !in s.locks && id !in s.used && name !in ConfigOf(s, scope)
    case Save(a, _) => a in s.actors && Saves(s.actors[a].phase)
    case Prepare(a) => At(s, a, ApplyingSaved)
    case Verify(a) => At(s, a, ResolvedSaved)
    case Check(a) => At(s, a, RegisteredSaved)
    case Rename(a, _) => At(s, a, Checked)
    case Error(a) => a in s.actors
    case Crash(a) => a in s.actors
    case Edit(_, _) => true
  }

  ghost function Apply(s: State, e: Event): State
    requires Enabled(s, e)
  {
    match e
    case Begin(a, id, scope, name, definition) => Begun(s, a, id, scope, name, definition)
    case Save(a, outcome) => AfterSave(s, a, outcome)
    case Prepare(a) => IfUnchanged(s, a, Resolved)
    case Verify(a) => Verified(s, a)
    case Check(a) => IfUnchanged(s, a, Checked)
    case Rename(a, ok) => Placed(s, a, ok)
    case Error(a) => Failed(s, a)
    case Crash(a) => Leave(s, a)
    case Edit(scope, config) => s.(configs := s.configs[scope := config])
  }

  function Goto(s: State, a: Actor, phase: Phase): State
    requires a in s.actors
  {
    s.(actors := s.actors[a := s.actors[a].(phase := phase)])
  }

  /** The call returns or its process dies: the configuration lock is released. */
  function Leave(s: State, a: Actor): State
    requires a in s.actors
  {
    s.(actors := s.actors - {a}, locks := s.locks - {s.actors[a].task.scope})
  }

  function Begun(s: State, a: Actor, id: Id, scope: Scope, name: string, definition: Definition): State {
    var previous := ConfigOf(s, scope);
    s.(locks := s.locks[scope := a], used := s.used + {id},
       actors := s.actors[a := Pc(Task(id, scope, name, previous, previous[name := definition]), Locked)])
  }

  /** What the journal is told at each save. */
  function EntryAt(pc: Pc): Entry {
    var t := pc.task;
    Entry(t.scope, t.name, if pc.phase.Staged? || pc.phase.Renamed? then Registered else Unregistered, t.staged,
          IsResolved(pc.phase))
  }

  /** What was resolved is kept in memory from the preparation on, a rollback included. */
  predicate IsResolved(phase: Phase) {
    match phase
    case Locked => false
    case PreparedSaved => false
    case ApplyingSaved => false
    case RollingBack(resolved) => resolved
    case _ => true
  }

  function RollBack(phase: Phase): Phase {
    RollingBack(IsResolved(phase))
  }

  function ProgressAt(phase: Phase): Progress {
    match phase
    case Locked => Prepared
    case Renamed => Committed
    case RollingBack(_) => RetryRequired
    case _ => Applying
  }

  function Recorded(s: State, pc: Pc): State {
    s.(entries := s.entries[pc.task.id := EntryAt(pc)],
       operations := s.operations[pc.task.id := ProgressAt(pc.phase)])
  }

  /** Where a save leads; nothing if the install is over. */
  function Next(phase: Phase, ok: bool): Option<Phase> {
    match phase
    case Locked => if ok then Some(PreparedSaved) else None
    case PreparedSaved => Some(if ok then ApplyingSaved else RollBack(phase))
    case Resolved => Some(if ok then ResolvedSaved else RollBack(phase))
    case Staged => Some(if ok then RegisteredSaved else RollBack(phase))
    case _ => None
  }

  function AfterSave(s: State, a: Actor, outcome: Outcome): State
    requires a in s.actors
  {
    var pc := s.actors[a];
    var written := if outcome.NotSaved? then s else Recorded(s, pc);
    var next := Next(pc.phase, outcome.Saved?);
    if next.None? then Leave(written, a) else Goto(written, a, next.value)
  }

  function IfUnchanged(s: State, a: Actor, phase: Phase): State
    requires a in s.actors
  {
    var t := s.actors[a].task;
    Goto(s, a, if ConfigOf(s, t.scope) == t.previous then phase else RollBack(s.actors[a].phase))
  }

  function Verified(s: State, a: Actor): State
    requires a in s.actors
  {
    var t := s.actors[a].task;
    var next := IfUnchanged(s, a, Staged);
    if ConfigOf(s, t.scope) == t.previous then next.(staged := s.staged + {t.id}) else next
  }

  /** The configuration is replaced; the step may still report failure. */
  function Placed(s: State, a: Actor, ok: bool): State
    requires a in s.actors
  {
    var t := s.actors[a].task;
    Goto(s, a, if ok then Renamed else RollBack(Checked)).(
      configs := s.configs[t.scope := t.staged], placed := s.placed + {t.id})
  }

  /** A failed step: before anything is recorded the install just ends, later it rolls back. */
  function Failed(s: State, a: Actor): State
    requires a in s.actors
  {
    var phase := s.actors[a].phase;
    if phase.Locked? || phase.Renamed? || phase.RollingBack? then Leave(s, a) else Goto(s, a, RollBack(phase))
  }

  // ----------------------------------------------------------------- launch

  predicate Matches(s: State, id: Id, scope: Scope, name: string) {
    id in s.entries && s.entries[id].registration.Registered? && s.entries[id].scope == scope && s.entries[id].name == name
  }

  function Candidates(s: State, scope: Scope, name: string): set<Id> {
    set id | id in s.entries && Matches(s, id, scope, name)
  }

  /** `launch::installation` lets the server start with this entry. */
  predicate Launches(s: State, scope: Scope, name: string, id: Id) {
    && Candidates(s, scope, name) == {id}
    && ((id in s.operations && !s.operations[id].Committed?) ==> s.entries[id].digest == ConfigOf(s, scope))
  }

  // ------------------------------------------------------------------- runs

  ghost predicate Init(s: State) {
    s.entries == map[] && s.operations == map[] && s.locks == map[] && s.actors == map[]
    && s.used == {} && s.staged == {} && s.placed == {}
  }

  ghost predicate Run(states: seq<State>, events: seq<Event>) {
    && |states| == |events| + 1
    && Init(states[0])
    && forall i {:trigger events[i]} :: 0 <= i < |events| ==>
         Enabled(states[i], events[i]) && states[i + 1] == Apply(states[i], events[i])
  }
}
