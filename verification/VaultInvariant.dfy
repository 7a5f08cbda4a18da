/** The inductive invariant of the vault and its preservation by every event. */
module VaultInvariant {
  import opened Common
  import opened Vault

  /** The generation `g` was given to a started write. */
  ghost predicate Logged(s: State, g: Generation) {
    exists i :: 0 <= i < |s.log| && s.log[i].record.generation == g
  }

  /** Two started writes with one generation are the same write. */
  ghost predicate Distinct(log: seq<Started>) {
    forall i, j :: 0 <= i < j < |log| ==> log[i].record.generation != log[j].record.generation
  }

  /** How a write relates to the write started just before it. */
  ghost predicate Justified(before: seq<Started>, next: Started) {
    match next.goal
    case BeginLogin =>
      before == [] || next.record == EmptyRecord(next.record.generation) ||
      next.record == Last(before).record.(generation := next.record.generation)
    case StoreLogin(mark) => mark == |before| && before != [] && Last(before).goal.BeginLogin?
    case SignOut => next.record == EmptyRecord(next.record.generation)
    case Invalidate(previous) =>
      && next.record == EmptyRecord(next.record.generation)
      && before != [] && Last(before).record.credential == Some(previous)
      && !Last(before).record.loginRequired && previous.refresh.Some?
    case Renew => before != [] && Last(before).goal.Invalidate?
    case MarkRejected(rejected) =>
      && before != [] && next.record.credential.Some?
      && next.record.credential == Last(before).record.credential
      && next.record.credential.value.access == rejected
      && next.record.loginRequired
  }

  /** Every started write is justified by the one before it. */
  ghost predicate Chain(log: seq<Started>) {
    forall k {:trigger log[k]} :: 0 <= k < |log| ==> Justified(log[..k], log[k])
  }

  /** The refresh token of `c`, if any, came from the server and was not sent yet. */
  ghost predicate UnsentCredential(s: State, c: Credential) {
    c.refresh.Some? ==> c.refresh.value in s.issued && c.refresh.value !in s.sent
  }

  ghost predicate Unsent(s: State, record: Record) {
    record.credential.Some? ==> UnsentCredential(s, record.credential.value)
  }

  ghost predicate LoginMark(s: State, g: Generation, mark: nat) {
    1 <= mark <= |s.log| && s.log[mark - 1].record.generation == g && s.log[mark - 1].goal.BeginLogin?
  }

  /** A copy of a record anywhere in the world: in the keyring, in flight, or just read. */
  ghost predicate CopyOk(s: State, r: Record) {
    && r.generation in s.drawn
    && (forall i :: 0 <= i < |s.log| && s.log[i].record.generation == r.generation ==> s.log[i].record == r)
    && (s.epoch.Some? && !s.published ==> s.epoch.value != r.generation)
    && (s.epoch.None? ==> s.published && |s.log| == 1 && r == s.log[0].record)
  }

  ghost predicate TaskOk(s: State, task: Task) {
    task.Finish? ==> LoginMark(s, task.generation, task.mark)
  }

  ghost predicate PcOk(s: State, pc: Pc) {
    match pc
    case Browsing(g, mark) => LoginMark(s, g, mark)
    case Reading(task) => TaskOk(s, task)
    case Checking(task, raw) => TaskOk(s, task) && (raw.Some? ==> CopyOk(s, raw.value))
    case Writing(goal, phase, record) =>
      && (goal.Invalidate? ==> UnsentCredential(s, goal.previous))
      && if phase.Revoke? then
           && record.generation in s.drawn && !Logged(s, record.generation)
           && (s.store.Some? ==> s.store.value.generation != record.generation)
           && (forall r :: r in s.late ==> r.generation != record.generation)
           && s.epoch != Some(record.generation)
           && Justified(s.log, Started(goal, record)) && Unsent(s, record)
         else s.log != [] && Last(s.log) == Started(goal, record) && !s.published
    case Rotating(c) =>
      && s.published && s.log != [] && Last(s.log).goal == Invalidate(c)
      && UnsentCredential(s, c)
    case Renewing(c) => s.published && s.log != [] && Last(s.log).goal == Invalidate(c)
    case Exchanging(mark) => s.published && s.log != [] && mark == |s.log| && Last(s.log).goal.BeginLogin?
    case Exchanged(mark) => s.published && s.log != [] && mark == |s.log| && Last(s.log).goal.BeginLogin?
  }

  ghost predicate LogOk(s: State) {
    && Distinct(s.log) && Chain(s.log)
    && (forall i :: 0 <= i < |s.log| ==> s.log[i].record.generation in s.drawn)
    && (s.log != [] ==> Unsent(s, Last(s.log).record))
    && (forall i :: 0 <= i < |s.sent| ==> s.sent[i] in s.issued)
    && (forall i, j :: 0 <= i < j < |s.sent| ==> s.sent[i] != s.sent[j])
  }

  ghost predicate EpochOk(s: State) {
    && (s.published ==> s.log != [] && (s.epoch.Some? ==> s.epoch.value == Last(s.log).record.generation))
    && (s.epoch.Some? ==> s.epoch.value in s.drawn)
    && (s.epoch.Some? && !s.published ==> !Logged(s, s.epoch.value))
    && (s.epoch.None? ==> s.late == multiset{} && (s.log == [] || (|s.log| == 1 && s.published)))
  }

  ghost predicate LockOk(s: State) {
    && (forall a :: a in s.actors && !s.actors[a].Browsing? ==> s.lock == Some(a))
    && (s.lock.Some? ==> s.lock.value in s.actors && !s.actors[s.lock.value].Browsing?)
  }

  ghost predicate CopiesOk(s: State) {
    && (s.store.Some? ==> CopyOk(s, s.store.value))
    && (forall r :: r in s.late ==> CopyOk(s, r))
  }

  ghost predicate Inv(s: State) {
    && LogOk(s) && EpochOk(s) && LockOk(s) && CopiesOk(s)
    && forall a :: a in s.actors ==> PcOk(s, s.actors[a])
  }

  lemma InitInv(s: State)
    requires Init(s)
    ensures Inv(s)
  {
  }

  /** The record a lock holder accepts is the one whose write started last, and it is published. */
  lemma AcceptedIsLatest(s: State, raw: Option<Record>)
    requires LogOk(s) && EpochOk(s)
    requires raw.Some? ==> CopyOk(s, raw.value)
    requires Accepted(raw, s.epoch).Some?
    ensures s.published && s.log != [] && Accepted(raw, s.epoch).value == Last(s.log).record
  {
  }

  /** `a` holds the lock, so every other actor is a login waiting for its browser. */
  ghost predicate Holds(s: State, a: Actor) {
    a in s.actors && s.lock == Some(a) && !s.actors[a].Browsing?
  }

  ghost function Others(s: State, a: Actor): map<Actor, Pc> {
    s.actors - {a}
  }

  /** A step of the lock holder keeps the invariant if it keeps the parts it can touch. */
  lemma HolderStep(s: State, t: State, a: Actor)
    requires Inv(s) && Holds(s, a)
    requires Others(t, a) == Others(s, a) && s.log <= t.log
    requires LogOk(t) && EpochOk(t) && CopiesOk(t)
    requires a in t.actors ==> PcOk(t, t.actors[a])
    requires t.lock == if a in t.actors && !t.actors[a].Browsing? then Some(a) else None
    ensures Inv(t)
  {
    forall b | b in t.actors && b != a
      ensures t.actors[b].Browsing? && PcOk(t, t.actors[b])
    {
      assert b in Others(t, a) && Others(t, a)[b] == t.actors[b];
      assert b in s.actors && s.actors[b] == t.actors[b];
      assert PcOk(s, s.actors[b]);
    }
  }

  /** Nothing but actors and the lock changed. */
  ghost predicate SameCells(s: State, t: State) {
    t == s.(actors := t.actors, lock := t.lock)
  }

  lemma CellsFrame(s: State, t: State)
    requires SameCells(s, t) && LogOk(s) && EpochOk(s) && CopiesOk(s)
    ensures LogOk(t) && EpochOk(t) && CopiesOk(t)
  {
    CopiesFrame(s, t);
  }

  lemma CopiesFrame(s: State, t: State)
    requires SameCells(s, t) && CopiesOk(s)
    ensures CopiesOk(t)
  {
    forall r | t.store == Some(r) || r in t.late ensures CopyOk(t, r) {
      assert CopyOk(s, r);
    }
  }

  lemma PcFrame(s: State, t: State, pc: Pc)
    requires SameCells(s, t) && PcOk(s, pc)
    ensures PcOk(t, pc)
  {
  }

  lemma LeaveInv(s: State, a: Actor)
    requires Inv(s) && At(s, a)
    ensures Inv(Leave(s, a))
  {
    hide PcOk, LogOk, EpochOk, CopiesOk;
    var t := Leave(s, a);
    CellsFrame(s, t);
    forall b | b in t.actors ensures PcOk(t, t.actors[b]) {
      PcFrame(s, t, t.actors[b]);
    }
  }

  lemma BeginWriteInv(s: State, a: Actor, goal: Goal, record: Record)
    requires Inv(s) && Holds(s, a)
    requires record.generation !in s.drawn
    requires Justified(s.log, Started(goal, record)) && Unsent(s, record)
    requires goal.Invalidate? ==> UnsentCredential(s, goal.previous)
    ensures Inv(BeginWrite(s, a, goal, record))
  {
    var t := BeginWrite(s, a, goal, record);
    assert forall r :: r in s.late ==> CopyOk(s, r);
    HolderStep(s, t, a);
  }

  /** A login passes its generation check only if no write started since its own. */
  lemma FinishInv(s: State, a: Actor, generation: Generation, mark: nat, raw: Option<Record>, g: Generation)
    requires Inv(s) && Holds(s, a) && s.actors[a] == Checking(Finish(generation, mark), raw)
    ensures Inv(AfterRead(s, a, Finish(generation, mark), Accepted(raw, s.epoch), g, false))
  {
    var answer := Accepted(raw, s.epoch);
    assert PcOk(s, s.actors[a]);
    if answer.Some? && answer.value.generation == generation {
      AcceptedIsLatest(s, raw);
      assert s.log[mark - 1].record.generation == s.log[|s.log| - 1].record.generation;
      assert mark == |s.log|;
      HolderStep(s, Goto(s, a, Exchanging(mark)), a);
    } else {
      LeaveInv(s, a);
    }
  }

  lemma AfterReadInv(s: State, a: Actor, task: Task, raw: Option<Record>, g: Generation, expired: bool)
    requires Inv(s) && Holds(s, a) && s.actors[a] == Checking(task, raw) && Fresh(s, g)
    ensures Inv(AfterRead(s, a, task, Accepted(raw, s.epoch), g, expired))
  {
    var answer := Accepted(raw, s.epoch);
    assert PcOk(s, s.actors[a]);
    if answer.Some? {
      AcceptedIsLatest(s, raw);
    }
    match task {
      case Begin =>
        BeginWriteInv(s, a, BeginLogin, if answer.Some? then answer.value.(generation := g) else EmptyRecord(g));
      case Finish(generation, mark) => FinishInv(s, a, generation, mark, raw, g);
      case Logout => LeaveInv(s, a);
      case Use =>
        LeaveInv(s, a);
        if answer.Some? && !answer.value.loginRequired && answer.value.credential.Some?
           && answer.value.credential.value.refresh.Some? {
          BeginWriteInv(s, a, Invalidate(answer.value.credential.value), EmptyRecord(g));
        }
      case Challenged(rejected, scope) =>
        LeaveInv(s, a);
        if answer.Some? && answer.value.credential.Some? && answer.value.credential.value.access == rejected {
          BeginWriteInv(s, a, MarkRejected(rejected),
                        answer.value.(generation := g, loginRequired := true,
                                      pendingScope := answer.value.pendingScope + scope));
        }
    }
  }

  lemma ChainExtends(log: seq<Started>, next: Started)
    requires Chain(log) && Justified(log, next)
    ensures Chain(log + [next])
  {
    var all := log + [next];
    forall k {:trigger all[k]} | 0 <= k < |all| ensures Justified(all[..k], all[k]) {
      if k < |log| {
        assert all[..k] == log[..k] && all[k] == log[k];
      } else {
        assert all[..k] == log;
      }
    }
  }

  lemma LogExtends(s: State, next: Started, g: Generation)
    requires LogOk(s) && Justified(s.log, next) && Unsent(s, next.record)
    requires next.record.generation in s.drawn && !Logged(s, next.record.generation) && g !in s.drawn
    ensures LogOk(s.(log := s.log + [next], drawn := s.drawn + {g}))
    ensures !Logged(s.(log := s.log + [next]), g)
  {
    var t := s.(log := s.log + [next], drawn := s.drawn + {g});
    ChainExtends(s.log, next);
    assert Last(t.log) == next;
    assert Distinct(t.log);
    assert Unsent(t, next.record);
  }

  lemma StartWriteCopies(s: State, a: Actor, g: Generation)
    requires Inv(s) && Enabled(s, StartWrite(a, g))
    ensures CopiesOk(Apply(s, StartWrite(a, g)))
  {
    var t := Apply(s, StartWrite(a, g));
    assert PcOk(s, s.actors[a]);
    forall r | s.store == Some(r) || r in s.late ensures CopyOk(t, r) {
      assert CopyOk(s, r);
    }
  }

  lemma StartWriteInv(s: State, a: Actor, g: Generation)
    requires Inv(s) && Enabled(s, StartWrite(a, g))
    ensures Inv(Apply(s, StartWrite(a, g)))
  {
    var t := Apply(s, StartWrite(a, g));
    LogExtends(s, Started(s.actors[a].goal, s.actors[a].record), g) by {
      assert PcOk(s, s.actors[a]);
    }
    StartWriteCopies(s, a, g);
    assert PcOk(t, t.actors[a]) by {
      assert PcOk(s, s.actors[a]);
      assert Last(t.log) == Started(s.actors[a].goal, s.actors[a].record);
    }
    HolderStep(s, t, a);
  }

  lemma WriteStoreInv(s: State, a: Actor)
    requires Inv(s) && Enabled(s, WriteStore(a))
    ensures Inv(Apply(s, WriteStore(a)))
  {
    var t := Apply(s, WriteStore(a));
    assert PcOk(s, s.actors[a]);
    HeldRecordIsCopy(s, s.actors[a].record);
    forall r | r in t.late ensures CopyOk(t, r) {
      assert CopyOk(s, r);
    }
    assert CopyOk(t, s.actors[a].record);
    HolderStep(s, t, a);
  }

  /** The record of the write in progress may be stored anywhere. */
  lemma HeldRecordIsCopy(s: State, record: Record)
    requires LogOk(s) && EpochOk(s) && s.log != [] && !s.published && Last(s.log).record == record
    ensures CopyOk(s, record)
  {
    forall i | 0 <= i < |s.log| && s.log[i].record.generation == record.generation
      ensures s.log[i].record == record
    {
      assert i == |s.log| - 1;
    }
    assert s.log[|s.log| - 1].record.generation == record.generation;
    assert Logged(s, record.generation);
  }

  /** Publishing alone, before the caller goes on. */
  ghost function Published(s: State, record: Record): State {
    s.(epoch := Some(record.generation), published := true)
  }

  lemma PublishedParts(s: State, record: Record)
    requires Inv(s) && s.log != [] && !s.published && Last(s.log).record == record
    ensures LogOk(Published(s, record)) && EpochOk(Published(s, record)) && CopiesOk(Published(s, record))
  {
    var t := Published(s, record);
    forall r | s.store == Some(r) || r in s.late ensures CopyOk(t, r) {
      assert CopyOk(s, r);
    }
  }

  /** The holder goes on, or releases the lock, without touching a cell. */
  lemma HolderPasses(s: State, p: State, t: State, a: Actor)
    requires Inv(s) && Holds(s, a) && s.log == p.log
    requires LogOk(p) && EpochOk(p) && CopiesOk(p)
    requires t == p.(actors := t.actors, lock := t.lock)
    requires Others(t, a) == Others(s, a)
    requires a in t.actors ==> PcOk(t, t.actors[a])
    requires t.lock == if a in t.actors && !t.actors[a].Browsing? then Some(a) else None
    ensures Inv(t)
  {
    forall r | t.store == Some(r) || r in t.late ensures CopyOk(t, r) {
      assert CopyOk(p, r);
    }
    HolderStep(s, t, a);
  }

  lemma AfterWriteInv(s: State, a: Actor, goal: Goal, record: Record)
    requires Inv(s) && Holds(s, a) && s.log != [] && Last(s.log) == Started(goal, record) && !s.published
    requires goal.Invalidate? ==> UnsentCredential(s, goal.previous)
    ensures Inv(AfterWrite(Published(s, record), a, goal, record))
  {
    var p := Published(s, record);
    PublishedParts(s, record);
    if goal.BeginLogin? {
      assert s.log[|s.log| - 1].record == record;
      HolderPasses(s, p, Goto(p, a, Browsing(record.generation, |s.log|)).(lock := None), a);
    } else if goal.Invalidate? {
      HolderPasses(s, p, Goto(p, a, Rotating(goal.previous)), a);
    } else {
      HolderPasses(s, p, Leave(p, a), a);
    }
  }

  lemma PublishInv(s: State, a: Actor)
    requires Inv(s) && Enabled(s, PublishGeneration(a))
    ensures Inv(Apply(s, PublishGeneration(a)))
  {
    assert PcOk(s, s.actors[a]);
    AfterWriteInv(s, a, s.actors[a].goal, s.actors[a].record);
  }

  /** The server may issue tokens at any moment. */
  lemma IssueInv(s: State, tokens: set<Token>)
    requires Inv(s)
    ensures Inv(s.(issued := s.issued + tokens))
  {
    var t := s.(issued := s.issued + tokens);
    forall r | t.store == Some(r) || r in t.late ensures CopyOk(t, r) {
      assert CopyOk(s, r);
    }
    forall b | b in t.actors ensures PcOk(t, t.actors[b]) {
      assert PcOk(s, s.actors[b]);
    }
  }

  lemma ReplyInv(s: State, a: Actor, g: Generation, c: Credential)
    requires Inv(s) && Enabled(s, Reply(a, g, c))
    ensures Inv(Apply(s, Reply(a, g, c)))
  {
    assert PcOk(s, s.actors[a]);
    if s.actors[a].Renewing? && c.refresh.Some? && c.refresh == s.actors[a].previous.refresh {
      LeaveInv(s, a);
    } else {
      var record := Record(g, Some(c), {}, false);
      var goal := if s.actors[a].Renewing? then Renew else StoreLogin(s.actors[a].mark);
      var known := s.(issued := s.issued + Refresh(record));
      IssueInv(s, Refresh(record));
      BeginWriteInv(known, a, goal, record);
      assert BeginWrite(known, a, goal, record) == Apply(s, Reply(a, g, c));
    }
  }

  lemma SendRefreshInv(s: State, a: Actor)
    requires Inv(s) && Enabled(s, SendRefresh(a))
    ensures Inv(Apply(s, SendRefresh(a)))
  {
    var t := Apply(s, SendRefresh(a));
    assert PcOk(s, s.actors[a]);
    InvalidatedIsEmpty(s.log);
    HolderStep(s, t, a);
  }

  lemma InvalidatedIsEmpty(log: seq<Started>)
    requires Chain(log) && log != [] && Last(log).goal.Invalidate?
    ensures Last(log).record.credential.None?
  {
    var k := |log| - 1;
    assert Justified(log[..k], log[k]);
  }

  lemma AbandonInv(s: State, a: Actor)
    requires Inv(s) && Enabled(s, Abandon(a))
    ensures Inv(Apply(s, Abandon(a)))
  {
    var t := Apply(s, Abandon(a));
    assert PcOk(s, s.actors[a]);
    HeldRecordIsCopy(s, s.actors[a].record);
    forall r | r in t.late ensures CopyOk(t, r) {
      assert r in s.late || r == s.actors[a].record;
    }
    HolderStep(s, t, a);
  }

  lemma LandInv(s: State, r: Record)
    requires Inv(s) && Enabled(s, Land(r))
    ensures Inv(Apply(s, Land(r)))
  {
    hide PcOk, CopyOk, LogOk;
    var t := Apply(s, Land(r));
    assert CopyOk(s, r);
    LogFrame(s, t);
    forall q | t.store == Some(q) || q in t.late ensures CopyOk(t, q) {
      assert q == r || q in s.late;
      CopyFrame(s, t, q);
    }
    forall b | b in t.actors ensures PcOk(t, t.actors[b]) {
      LandPc(s, r, t.actors[b]);
    }
  }

  lemma LogFrame(s: State, t: State)
    requires LogOk(s) && t == s.(store := t.store, late := t.late)
    ensures LogOk(t)
  {
  }

  lemma CopyFrame(s: State, t: State, r: Record)
    requires CopyOk(s, r) && t == s.(store := t.store, late := t.late)
    ensures CopyOk(t, r)
  {
  }

  lemma LandPc(s: State, r: Record, pc: Pc)
    requires r in s.late && PcOk(s, pc)
    ensures PcOk(s.(store := Some(r), late := s.late - multiset{r}), pc)
  {
    var t := s.(store := Some(r), late := s.late - multiset{r});
    assert forall q :: q in t.late ==> q in s.late;
  }

  lemma AcquireInv(s: State, a: Actor, task: Task)
    requires Inv(s) && Enabled(s, Acquire(a, task))
    ensures Inv(Apply(s, Acquire(a, task)))
  {
    hide PcOk, LogOk, EpochOk, CopiesOk;
    var t := Apply(s, Acquire(a, task));
    CellsFrame(s, t);
    forall b | b in t.actors && b != a ensures PcOk(t, t.actors[b]) {
      PcFrame(s, t, t.actors[b]);
    }
    assert PcOk(t, Reading(task)) by { NewTaskOk(t, task); }
  }

  lemma NewTaskOk(s: State, task: Task)
    requires !task.Finish?
    ensures PcOk(s, Reading(task))
  {
  }

  lemma ResumeInv(s: State, a: Actor)
    requires Inv(s) && Enabled(s, Resume(a))
    ensures Inv(Apply(s, Resume(a)))
  {
    assert PcOk(s, s.actors[a]);
  }

  lemma ReadStoreInv(s: State, a: Actor, g: Generation)
    requires Inv(s) && Enabled(s, ReadStore(a, g))
    ensures Inv(Apply(s, ReadStore(a, g)))
  {
    assert PcOk(s, s.actors[a]);
    if !s.actors[a].task.Logout? {
      HolderStep(s, Apply(s, ReadStore(a, g)), a);
    } else {
      LeaveInv(s, a);
      BeginWriteInv(s, a, SignOut, EmptyRecord(g));
    }
  }

  lemma ReadStoreBackInv(s: State, a: Actor)
    requires Inv(s) && Enabled(s, ReadStoreBack(a))
    ensures Inv(Apply(s, ReadStoreBack(a)))
  {
    assert PcOk(s, s.actors[a]);
    LeaveInv(s, a);
    if s.store == Some(s.actors[a].record) {
      HolderStep(s, Apply(s, ReadStoreBack(a)), a);
    }
  }

  lemma SendCodeInv(s: State, a: Actor)
    requires Inv(s) && Enabled(s, SendCode(a))
    ensures Inv(Apply(s, SendCode(a)))
  {
    assert PcOk(s, s.actors[a]);
    HolderStep(s, Apply(s, SendCode(a)), a);
  }

  lemma EraseInv(s: State)
    requires Inv(s)
    ensures Inv(Apply(s, Erase))
  {
    forall b | b in s.actors ensures PcOk(Apply(s, Erase), s.actors[b]) {
      assert PcOk(s, s.actors[b]);
    }
  }

  /** Every event of every actor, and of the environment, keeps the invariant. */
  lemma StepInv(s: State, e: Event)
    requires Inv(s) && Enabled(s, e)
    ensures Inv(Apply(s, e))
  {
    match e
    case Acquire(a, task) => AcquireInv(s, a, task);
    case Resume(a) => ResumeInv(s, a);
    case ReadStore(a, g) => ReadStoreInv(s, a, g);
    case CheckEpoch(a, g, expired) => AfterReadInv(s, a, s.actors[a].task, s.actors[a].raw, g, expired);
    case StartWrite(a, g) => StartWriteInv(s, a, g);
    case WriteStore(a) => WriteStoreInv(s, a);
    case ReadStoreBack(a) => ReadStoreBackInv(s, a);
    case PublishGeneration(a) => PublishInv(s, a);
    case SendRefresh(a) => SendRefreshInv(s, a);
    case SendCode(a) => SendCodeInv(s, a);
    case Reply(a, g, c) => ReplyInv(s, a, g, c);
    case Fail(a) => LeaveInv(s, a);
    case Abandon(a) => AbandonInv(s, a);
    case Land(r) => LandInv(s, r);
    case Erase => EraseInv(s);
  }

  lemma {:induction false} RunInv(states: seq<State>, events: seq<Event>, i: nat)
    requires Run(states, events) && i < |states|
    ensures Inv(states[i])
  {
    hide Inv, Apply, Enabled, Init;
    if i == 0 {
      InitInv(states[0]);
    } else {
      RunInv(states, events, i - 1);
      StepInv(states[i - 1], events[i - 1]);
    }
  }
}
