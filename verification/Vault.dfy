/**
 The OAuth credential vault and the providers built on it
 (src/auth/credentials.rs, src/auth/provider.rs), as a state machine over the
 steps of any number of actors.

 The shared cells are one keyring record, one epoch file and one file lock. A
 keyring write whose caller gave up stays in flight and may land at any later
 moment; an actor may fail or crash between any two steps. `random()` is a
 source of values never drawn before, and the token endpoint never hands out a
 refresh token a second time.
 */
module Vault {
  import opened Common

  type Actor = nat
  type Generation = nat
  type Token = nat

  datatype Credential = Credential(access: Token, refresh: Option<Token>)

  datatype Record = Record(
    generation: Generation,
    credential: Option<Credential>,
    pendingScope: set<string>,
    loginRequired: bool)

  function EmptyRecord(generation: Generation): Record {
    Record(generation, None, {}, false)
  }

  /** What an actor does with the lock held. */
  datatype Task =
    | Begin
    | Finish(generation: Generation, mark: nat)
    | Logout
    | Use
    | Challenged(rejected: Token, scope: set<string>)

  /** Why a record is written. `mark` counts the writes started when the login began. */
  datatype Goal =
    | BeginLogin
    | StoreLogin(mark: nat)
    | SignOut
    | Invalidate(previous: Credential)
    | Renew
    | MarkRejected(rejected: Token)

  /** The four steps of `Vault::write`, in order. */
  datatype Phase = Revoke | Store | ReadBack | Publish

  datatype Pc =
    | Browsing(generation: Generation, mark: nat)      // login between its two critical sections
    | Reading(task: Task)                              // lock held, keyring not read yet
    | Checking(task: Task, raw: Option<Record>)        // keyring read, epoch not read yet
    | Writing(goal: Goal, phase: Phase, record: Record)
    | Rotating(previous: Credential)                   // invalidated, refresh token not sent yet
    | Renewing(previous: Credential)                   // refresh token sent
    | Exchanging(mark: nat)                            // generation checked, code not sent yet
    | Exchanged(mark: nat)                             // code sent

  /** A write whose first epoch change committed. */
  datatype Started = Started(goal: Goal, record: Record)

  datatype State = State(
    store: Option<Record>,
    epoch: Option<Generation>,
    late: multiset<Record>,
    lock: Option<Actor>,
    actors: map<Actor, Pc>,
    drawn: set<Generation>,
    issued: set<Token>,
    // History, never read by a step: started writes, whether the last one
    // published its generation, and the refresh tokens sent so far.
    log: seq<Started>,
    published: bool,
    sent: seq<Token>)

  datatype Event =
    | Acquire(actor: Actor, task: Task)
    | Resume(actor: Actor)
    | ReadStore(actor: Actor, draw: Generation)
    | CheckEpoch(actor: Actor, draw: Generation, expired: bool)
    | StartWrite(actor: Actor, draw: Generation)
    | WriteStore(actor: Actor)
    | ReadStoreBack(actor: Actor)
    | PublishGeneration(actor: Actor)
    | SendRefresh(actor: Actor)
    | SendCode(actor: Actor)
    | Reply(actor: Actor, draw: Generation, credential: Credential)
    | Fail(actor: Actor)
    | Abandon(actor: Actor)
    | Land(record: Record)
    | Erase

  // ---------------------------------------------------------------- reading

  /** `Vault::read`: a stored record counts only while no epoch contradicts it. */
  function Accepted(raw: Option<Record>, epoch: Option<Generation>): Option<Record> {
    if raw.Some? && epoch.Some? && epoch.value != raw.value.generation then None else raw
  }

  function Visible(s: State): Option<Record> {
    Accepted(s.store, s.epoch)
  }

  // ------------------------------------------------------------------ steps

  ghost predicate At(s: State, a: Actor) {
    a in s.actors && (s.lock == Some(a) || s.actors[a].Browsing?)
  }

  ghost predicate Fresh(s: State, g: Generation) {
    g !in s.drawn
  }

  function Goto(s: State, a: Actor, pc: Pc): State {
    s.(actors := s.actors[a := pc])
  }

  /** The call returns, or its process dies: a held lock is released. */
  function Leave(s: State, a: Actor): State {
    s.(actors := s.actors - {a}, lock := if s.lock == Some(a) then None else s.lock)
  }

  function BeginWrite(s: State, a: Actor, goal: Goal, record: Record): State {
    Goto(s, a, Writing(goal, Revoke, record)).(drawn := s.drawn + {record.generation})
  }

  ghost predicate Enabled(s: State, e: Event) {
    match e
    case Acquire(a, task) => a !in s.actors && s.lock.None? && !task.Finish?
    case Resume(a) => At(s, a) && s.actors[a].Browsing? && s.lock.None?
    case ReadStore(a, g) => At(s, a) && s.actors[a].Reading? && Fresh(s, g)
    case CheckEpoch(a, g, _) => At(s, a) && s.actors[a].Checking? && Fresh(s, g)
    case StartWrite(a, g) => At(s, a) && s.actors[a].Writing? && s.actors[a].phase.Revoke? && Fresh(s, g)
    case WriteStore(a) => At(s, a) && s.actors[a].Writing? && s.actors[a].phase.Store?
    case ReadStoreBack(a) => At(s, a) && s.actors[a].Writing? && s.actors[a].phase.ReadBack?
    case PublishGeneration(a) => At(s, a) && s.actors[a].Writing? && s.actors[a].phase.Publish?
    case SendRefresh(a) => At(s, a) && s.actors[a].Rotating? && s.actors[a].previous.refresh.Some?
    case SendCode(a) => At(s, a) && s.actors[a].Exchanging?
    case Reply(a, g, c) =>
      && At(s, a) && (s.actors[a].Renewing? || s.actors[a].Exchanged?) && Fresh(s, g)
      && (c.refresh.Some? ==>
            c.refresh.value !in s.issued || (s.actors[a].Renewing? && c.refresh == s.actors[a].previous.refresh))
    case Fail(a) => At(s, a)
    case Abandon(a) => At(s, a) && s.actors[a].Writing? && s.actors[a].phase.Store?
    case Land(r) => r in s.late
    case Erase => true
  }

  ghost function Apply(s: State, e: Event): State
    requires Enabled(s, e)
  {
    match e
    case Acquire(a, task) => Goto(s, a, Reading(task)).(lock := Some(a))
    case Resume(a) =>
      Goto(s, a, Reading(Finish(s.actors[a].generation, s.actors[a].mark))).(lock := Some(a))
    case ReadStore(a, g) =>
      if !s.actors[a].task.Logout? then Goto(s, a, Checking(s.actors[a].task, s.store))
      else if s.store.Some? then BeginWrite(s, a, SignOut, EmptyRecord(g))
      else Leave(s, a)
    case CheckEpoch(a, g, expired) =>
      AfterRead(s, a, s.actors[a].task, Accepted(s.actors[a].raw, s.epoch), g, expired)
    case StartWrite(a, g) =>
      var pc := s.actors[a];
      Goto(s, a, pc.(phase := Store)).(
        epoch := Some(g), drawn := s.drawn + {g},
        log := s.log + [Started(pc.goal, pc.record)], published := false)
    case WriteStore(a) =>
      Goto(s, a, s.actors[a].(phase := ReadBack)).(store := Some(s.actors[a].record))
    case ReadStoreBack(a) =>
      if s.store == Some(s.actors[a].record) then Goto(s, a, s.actors[a].(phase := Publish)) else Leave(s, a)
    case PublishGeneration(a) =>
      var pc := s.actors[a];
      AfterWrite(s.(epoch := Some(pc.record.generation), published := true), a, pc.goal, pc.record)
    case SendRefresh(a) =>
      var c := s.actors[a].previous;
      Goto(s, a, Renewing(c)).(sent := s.sent + [c.refresh.value])
    case SendCode(a) => Goto(s, a, Exchanged(s.actors[a].mark))
    case Reply(a, g, c) => AfterReply(s, a, g, c)
    case Fail(a) => Leave(s, a)
    case Abandon(a) => Leave(s, a).(late := s.late + multiset{s.actors[a].record})
    case Land(r) => s.(store := Some(r), late := s.late - multiset{r})
    case Erase => s.(store := None)
  }

  /** What the caller of `read` does with its answer. */
  ghost function AfterRead(s: State, a: Actor, task: Task, answer: Option<Record>, g: Generation, expired: bool): State {
    match task
    case Begin =>
      BeginWrite(s, a, BeginLogin, if answer.Some? then answer.value.(generation := g) else EmptyRecord(g))
    case Finish(generation, mark) =>
      if answer.Some? && answer.value.generation == generation then Goto(s, a, Exchanging(mark)) else Leave(s, a)
    case Logout => Leave(s, a)
    case Use =>
      if answer.None? || answer.value.loginRequired || answer.value.credential.None? || !expired then Leave(s, a)
      else if answer.value.credential.value.refresh.None? then Leave(s, a)
      else BeginWrite(s, a, Invalidate(answer.value.credential.value), EmptyRecord(g))
    case Challenged(rejected, scope) =>
      if answer.None? || answer.value.credential.None? || answer.value.credential.value.access != rejected then Leave(s, a)
      else
        BeginWrite(s, a, MarkRejected(rejected),
          answer.value.(generation := g, loginRequired := true, pendingScope := answer.value.pendingScope + scope))
  }

  /** What the caller of `write` does once the generation is published. */
  ghost function AfterWrite(s: State, a: Actor, goal: Goal, record: Record): State {
    match goal
    case BeginLogin => Goto(s, a, Browsing(record.generation, |s.log|)).(lock := None)
    case Invalidate(previous) => Goto(s, a, Rotating(previous))
    case _ => Leave(s, a)
  }

  /** The token endpoint answered. A rotation that returns the consumed token is refused. */
  ghost function AfterReply(s: State, a: Actor, g: Generation, c: Credential): State
    requires a in s.actors && (s.actors[a].Renewing? || s.actors[a].Exchanged?)
  {
    var record := Record(g, Some(c), {}, false);
    var goal := if s.actors[a].Renewing? then Renew else StoreLogin(s.actors[a].mark);
    if s.actors[a].Renewing? && c.refresh.Some? && c.refresh == s.actors[a].previous.refresh then Leave(s, a)
    else BeginWrite(s, a, goal, record).(issued := s.issued + Refresh(record))
  }

  function Refresh(r: Record): set<Token> {
    if r.credential.Some? && r.credential.value.refresh.Some? then {r.credential.value.refresh.value} else {}
  }

  // ------------------------------------------------------------------- runs

  /** Start: nobody holds the lock, nothing is in flight, and the history holds what is visible. */
  ghost predicate Init(s: State) {
    && s.late == multiset{} && s.lock.None? && s.actors == map[] && s.sent == []
    && (s.store.Some? ==> s.store.value.generation in s.drawn && Refresh(s.store.value) <= s.issued)
    && (s.epoch.Some? ==> s.epoch.value in s.drawn)
    && s.log == (if Visible(s).Some? then [Started(BeginLogin, Visible(s).value)] else [])
    && s.published == Visible(s).Some?
  }

  /** `states` is a run of the machine: it starts in Init and every step is an enabled event. */
  ghost predicate Run(states: seq<State>, events: seq<Event>) {
    && |states| == |events| + 1
    && Init(states[0])
    && forall i {:trigger events[i]} :: 0 <= i < |events| ==>
         Enabled(states[i], events[i]) && states[i + 1] == Apply(states[i], events[i])
  }
}
