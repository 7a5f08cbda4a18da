/**
 The provider's operations as the program runs them, statement by statement
 (src/auth/credentials.rs, src/auth/provider.rs). Every step is recorded as an
 event of the vault machine, so that whatever is proved about all runs of the
 machine holds of this program among any other actors.

 A script says what the world does before each step: nothing, a late keyring
 write lands, someone erases the keyring record, or the step fails or the
 process dies.
 */
module VaultProgram {
  import opened Common
  import opened Vault
  import VaultTheorems

  /** `late` says whether a keyring write that is given up stays in flight. */
  datatype Move = Quiet | Lands(record: Record) | Wiped | Halt(late: bool)

  lemma RunExtends(states: seq<State>, events: seq<Event>, e: Event)
    requires Run(states, events) && Enabled(Last(states), e)
    ensures Run(states + [Apply(Last(states), e)], events + [e])
  {
    hide Enabled, Apply, Init;
    var more, all := states + [Apply(Last(states), e)], events + [e];
    forall i {:trigger all[i]} | 0 <= i < |all| ensures Enabled(more[i], all[i]) && more[i + 1] == Apply(more[i], all[i]) {
      assert i < |events| ==> all[i] == events[i];
    }
  }

  /** A decision moves only the actor and draws at most `g`. */
  lemma DecidingWritesNothing(s: State, a: Actor, task: Task, answer: Option<Record>, g: Generation, expired: bool)
    ensures var t := AfterRead(s, a, task, answer, g, expired);
            t.store == s.store && t.epoch == s.epoch && t.late == s.late && t.drawn <= s.drawn + {g}
  {
  }

  class Provider {
    const me: Actor
    var store: Option<Record>
    var epoch: Option<Generation>
    var late: multiset<Record>
    var next: Generation
    var script: seq<Move>
    var stays: bool
    ghost var states: seq<State>
    ghost var events: seq<Event>

    /** A process that finds the cells as some run of the machine left them. */
    constructor (me: Actor, cells: State, next: Generation, script: seq<Move>, ghost states: seq<State>, ghost events: seq<Event>)
      requires Run(states, events) && cells == Last(states) && forall g :: g in cells.drawn ==> g < next
      ensures Valid() && this.me == me && this.states == states && this.events == events
    {
      this.me, this.next, this.script, this.stays := me, next, script, false;
      store, epoch, late := cells.store, cells.epoch, cells.late;
      this.states, this.events := states, events;
    }

    ghost function Now(): State
      reads this
      requires states != []
    {
      Last(states)
    }

    /** The cells are those of a reachable state of the machine, and `next` was never drawn. */
    ghost predicate Valid()
      reads this
    {
      && states != [] && Run(states, events) && Now().store == store && Now().epoch == epoch && Now().late == late
      && forall g :: g in Now().drawn ==> g < next
    }

    ghost predicate Holds(pc: Pc)
      reads this
      requires states != []
    {
      Now().lock == Some(me) && me in Now().actors && Now().actors[me] == pc
    }

    ghost predicate Away()
      reads this
      requires states != []
    {
      me !in Now().actors && Now().lock != Some(me)
    }

    /** The step just taken is an event of the machine. */
    ghost method Took(e: Event)
      requires states != [] && Run(states, events) && Enabled(Now(), e)
      modifies this`states, this`events
      ensures states == old(states) + [Apply(old(Now()), e)] && events == old(events) + [e]
      ensures Run(states, events) && Now() == Apply(old(Now()), e)
    {
      RunExtends(states, events, e);
      states, events := states + [Apply(Now(), e)], events + [e];
    }

    /** The world moves; false if the coming step does not happen. */
    method Step() returns (go: bool)
      requires Valid()
      modifies this
      ensures Valid() && old(events) <= events && old(states) <= states && next == old(next)
      ensures Now() == old(Now()).(store := Now().store, late := Now().late)
      ensures old(script) == [] ==> go && script == [] && Now() == old(Now())
    {
      if script == [] {
        return true;
      }
      var move := script[0];
      script := script[1..];
      match move {
        case Quiet =>
        case Halt(late) =>
          stays := late;
          return false;
        case Lands(record) =>
          if record in late {
            store, late := Some(record), late - multiset{record};
            Took(Land(record));
          }
        case Wiped =>
          store := None;
          Took(Erase);
      }
      return true;
    }

    /** The call returns with an error, or the process dies. */
    ghost method Gone()
      requires Valid() && me in Now().actors && Now().lock == Some(me)
      modifies this`states, this`events
      ensures Valid() && Away() && old(events) <= events && old(states) <= states && Now().issued == old(Now()).issued
    {
      Took(Fail(me));
    }

    method Random() returns (g: Generation)
      requires Valid()
      modifies this`next
      ensures Valid() && g !in Now().drawn && next == g + 1
    {
      g := next;
      next := next + 1;
    }

    /** `Vault::lock`, once nobody else holds it. */
    method Lock(task: Task)
      requires Valid() && Away() && Now().lock.None? && !task.Finish?
      modifies this`states, this`events
      ensures Valid() && Holds(Reading(task)) && old(events) <= events && old(states) <= states
      ensures Now().issued == old(Now()).issued
    {
      Took(Acquire(me, task));
    }

    /** The write of `record` has committed its first epoch change. */
    ghost predicate Wrote(goal: Goal, record: Record)
      reads this
      requires states != []
    {
      Now().log != [] && Last(Now().log) == Started(goal, record)
    }

    method Revoke(goal: Goal, record: Record) returns (ok: bool)
      requires Valid() && Holds(Writing(goal, Phase.Revoke, record))
      modifies this
      ensures Valid() && old(events) <= events && old(states) <= states
      ensures if ok then Holds(Writing(goal, Store, record)) && Wrote(goal, record) else Away()
      ensures Now().issued == old(Now()).issued
      ensures old(script) == [] ==> ok && script == []
    {
      hide Run;
      var go := Step();
      if !go {
        Gone();
        return false;
      }
      var revoked := Random();
      epoch := Some(revoked);
      Took(StartWrite(me, revoked));
      return true;
    }

    method Put(goal: Goal, record: Record) returns (ok: bool)
      requires Valid() && Holds(Writing(goal, Store, record)) && Wrote(goal, record)
      modifies this
      ensures Valid() && old(events) <= events && old(states) <= states
      ensures if ok then Holds(Writing(goal, ReadBack, record)) && Wrote(goal, record) else Away()
      ensures Now().issued == old(Now()).issued
      ensures old(script) == [] ==> ok && script == [] && store == Some(record)
    {
      hide Run;
      var go := Step();
      if go {
        store := Some(record);
        Took(WriteStore(me));
      } else if stays {
        late := late + multiset{record};
        Took(Abandon(me));
      } else {
        Gone();
      }
      return go;
    }

    method Verify(goal: Goal, record: Record) returns (ok: bool)
      requires Valid() && Holds(Writing(goal, ReadBack, record)) && Wrote(goal, record)
      modifies this
      ensures Valid() && old(events) <= events && old(states) <= states
      ensures if ok then Holds(Writing(goal, Phase.Publish, record)) && Wrote(goal, record) else Away()
      ensures Now().issued == old(Now()).issued
      ensures old(script) == [] && old(store) == Some(record) ==> ok && script == [] && store == Some(record)
    {
      hide Run;
      var go := Step();
      if !go {
        Gone();
        return false;
      }
      ok := store == Some(record);
      Took(ReadStoreBack(me));
    }

    /** What `Vault::read` finds now. */
    function Found(): Option<Record>
      reads this
    {
      Accepted(store, epoch)
    }

    /** Where a write leaves its caller. */
    ghost predicate Continues(goal: Goal, record: Record)
      reads this
      requires states != []
    {
      match goal
      case BeginLogin =>
        me in Now().actors && Now().actors[me] == Browsing(record.generation, |Now().log|) && Now().lock.None?
      case Invalidate(previous) => Holds(Rotating(previous))
      case _ => Away()
    }

    method Publish(goal: Goal, record: Record) returns (ok: bool)
      requires Valid() && Holds(Writing(goal, Phase.Publish, record)) && Wrote(goal, record)
      modifies this
      ensures Valid() && old(events) <= events && old(states) <= states
      ensures if ok then Continues(goal, record) && Wrote(goal, record) && Now().published else Away()
      ensures Now().issued == old(Now()).issued
      ensures old(script) == [] && old(store) == Some(record) ==> ok && script == [] && Found() == Some(record)
    {
      hide Run;
      var go := Step();
      if !go {
        Gone();
        return false;
      }
      epoch := Some(record.generation);
      Took(PublishGeneration(me));
      return true;
    }

    /**
     `Vault::write`: a fresh epoch hides every record, then the record is stored,
     read back, and its generation published. Undisturbed, it ends with that record visible.
     */
    method Write(goal: Goal, record: Record) returns (ok: bool)
      requires Valid() && Holds(Writing(goal, Phase.Revoke, record))
      modifies this
      ensures Valid() && old(events) <= events && old(states) <= states
      ensures if ok then Continues(goal, record) && Wrote(goal, record) && Now().published else Away()
      ensures Now().issued == old(Now()).issued
      ensures old(script) == [] ==> ok && script == [] && Found() == Some(record)
    {
      hide Valid, Holds, Wrote, Continues, Away;
      ok := Revoke(goal, record);
      if ok {
        ok := Put(goal, record);
      }
      if ok {
        ok := Verify(goal, record);
      }
      if ok {
        ok := Publish(goal, record);
      }
    }

    /** The keyring half of `Vault::read`. */
    method Look(task: Task) returns (raw: Option<Option<Record>>)
      requires Valid() && Holds(Reading(task)) && !task.Logout?
      modifies this
      ensures Valid() && old(events) <= events && old(states) <= states && Now().issued == old(Now()).issued
      ensures if raw.Some? then Holds(Checking(task, raw.value)) else Away()
      ensures old(script) == [] ==> raw == Some(store) && script == [] && store == old(store) && epoch == old(epoch)
    {
      hide Run;
      var go := Step();
      if !go {
        Gone();
        return None;
      }
      raw := Some(store);
      Took(ReadStore(me, next));
    }

    /**
     The epoch half of `Vault::read`, and what the caller decides on its answer, in
     the state `at`.
     */
    method Decide(task: Task, raw: Option<Record>, expired: bool)
      returns (answer: Option<Option<Record>>, g: Generation, ghost at: State)
      requires Valid() && Holds(Checking(task, raw))
      modifies this
      ensures Valid() && old(events) <= events && old(states) <= states
      ensures answer.None? ==> Away()
      ensures answer.Some? ==>
                && at in states && me in at.actors && at.actors[me] == Checking(task, raw) && at.lock == Some(me)
                && at.issued == old(Now()).issued && answer.value == Accepted(raw, at.epoch)
                && Now() == AfterRead(at, me, task, answer.value, g, expired)
      ensures old(script) == [] ==> answer.Some? && script == [] && store == old(store) && epoch == old(epoch)
      ensures old(script) == [] && raw == old(store) ==> answer.value == old(Found())
    {
      hide Run, AfterRead, AfterWrite, AfterReply;
      at := Now();
      var go := Step();
      g := Random();
      if !go {
        Gone();
        return None, g, at;
      }
      answer := Some(Accepted(raw, epoch));
      at := Now();
      ghost var before := states;
      Took(CheckEpoch(me, g, expired));
      assert states[|before| - 1] == at;
      DecidingWritesNothing(at, me, task, answer.value, g, expired);
    }

    /** `logout`: after Ok no credential is visible. Undisturbed it succeeds, and writes if anything was stored. */
    method LogOut() returns (ok: bool, wrote: bool)
      requires Valid() && Away() && Now().lock.None?
      modifies this
      ensures Valid() && Away() && old(events) <= events && old(states) <= states
      ensures ok && wrote ==>
                && Now().published && Now().log != [] && Last(Now().log).goal == SignOut
                && Last(Now().log).record.credential.None?
      ensures ok && !wrote ==> store.None?
      ensures ok ==> Visible(Now()).None? || Visible(Now()).value.credential.None?
      ensures old(script) == [] ==> ok && (wrote <==> old(store).Some?)
    {
      hide Run, Wrote, AfterRead, AfterWrite, AfterReply;
      Lock(Logout);
      var g;
      ok, wrote, g := LookForRecord();
      if ok && wrote {
        ok := Write(SignOut, EmptyRecord(g));
        if ok {
          WroteRecord(SignOut, EmptyRecord(g));
          if Visible(Now()).Some? {
            VisibleIsLast();
          }
        }
      }
    }

    /** The keyring is read; with a record in it a logout goes on to write. */
    method LookForRecord() returns (ok: bool, found: bool, g: Generation)
      requires Valid() && Holds(Reading(Logout))
      modifies this
      ensures Valid() && old(events) <= events && old(states) <= states
      ensures if ok && found then Holds(Writing(SignOut, Phase.Revoke, EmptyRecord(g))) else Away()
      ensures ok ==> (found <==> store.Some?)
      ensures old(script) == [] ==> ok && script == [] && (found <==> old(store).Some?)
    {
      hide Run, AfterRead, AfterWrite, AfterReply;
      ok := Step();
      g := Random();
      if !ok {
        Gone();
        return false, false, g;
      }
      found := store.Some?;
      Took(ReadStore(me, g));
    }

    lemma VisibleIsLast()
      requires Valid() && Visible(Now()).Some?
      ensures Now().log != [] && Visible(Now()).value == Last(Now().log).record
    {
      VaultTheorems.VisibleIsLatest(states, events, |states| - 1);
    }

    /** The first critical section of a login: what is stored is replaced under a new generation. */
    method StartLogin() returns (generation: Option<Generation>)
      requires Valid() && Away() && Now().lock.None?
      modifies this
      ensures Valid() && old(events) <= events && old(states) <= states
      ensures match generation
              case None => Away()
              case Some(g) =>
                && me in Now().actors && Now().actors[me] == Browsing(g, |Now().log|) && Now().lock.None?
                && Now().published && Now().log != [] && Last(Now().log).record.generation == g
      ensures old(script) == [] ==> generation.Some?
      ensures old(script) == [] ==>
                Found() == Some(if old(Found()).Some? then old(Found()).value.(generation := generation.value)
                                else EmptyRecord(generation.value))
    {
      hide Run, Wrote, AfterWrite, AfterReply;
      Lock(Begin);
      var raw := Look(Begin);
      if raw.None? {
        return None;
      }
      var answer, g, at := Decide(Begin, raw.value, false);
      if answer.None? {
        return None;
      }
      var record := if answer.value.Some? then answer.value.value.(generation := g) else EmptyRecord(g);
      var ok := Write(BeginLogin, record);
      assert ok ==> Wrote(BeginLogin, record) && Continues(BeginLogin, record);
      if !ok {
        return None;
      }
      WroteRecord(BeginLogin, record);
      return Some(g);
    }

    lemma WroteRecord(goal: Goal, record: Record)
      requires states != [] && Wrote(goal, record)
      ensures Now().log != [] && Last(Now().log).record == record && Last(Now().log).goal == goal
    {
    }

    /** The lock for the second critical section of a login. */
    method LockAgain(generation: Generation, mark: nat)
      requires Valid() && Now().lock.None? && me in Now().actors && Now().actors[me] == Browsing(generation, mark)
      modifies this`states, this`events
      ensures Valid() && Holds(Reading(Finish(generation, mark))) && old(events) <= events && old(states) <= states
      ensures Now().issued == old(Now()).issued
    {
      hide Run;
      Took(Resume(me));
    }

    /** The second critical section: the generation is checked, the code exchanged, the credential stored. */
    method FinishLogin(generation: Generation, mark: nat, reply: Option<Credential>) returns (ok: bool)
      requires Valid() && Now().lock.None? && me in Now().actors && Now().actors[me] == Browsing(generation, mark)
      requires reply.Some? && reply.value.refresh.Some? ==> reply.value.refresh.value !in Now().issued
      modifies this
      ensures Valid() && Away() && old(events) <= events && old(states) <= states
      ensures ok ==> reply.Some? && Now().published && Now().log != [] && Last(Now().log).goal == StoreLogin(mark)
      ensures ok ==> Last(Now().log).record.credential == reply
      ensures old(script) == [] ==>
                (ok <==> old(Found()).Some? && old(Found()).value.generation == generation && reply.Some?)
      ensures old(script) == [] && ok ==> Found().Some? && IsNew(Found().value, reply)
    {
      hide Run, Wrote, AfterWrite, AfterReply;
      LockAgain(generation, mark);
      var task := Finish(generation, mark);
      var raw := Look(task);
      if raw.None? {
        return false;
      }
      var answer, g, at := Decide(task, raw.value, false);
      if answer.None? || answer.value.None? || answer.value.value.generation != generation {
        return false;
      }
      ok := Exchange(mark, reply);
    }

    /** A record of this credential alone, with no login required. */
    predicate IsNew(record: Record, credential: Option<Credential>) {
      record == Record(record.generation, credential, {}, false)
    }

    method Exchange(mark: nat, reply: Option<Credential>) returns (ok: bool)
      requires Valid() && Holds(Exchanging(mark))
      requires reply.Some? && reply.value.refresh.Some? ==> reply.value.refresh.value !in Now().issued
      modifies this
      ensures Valid() && Away() && old(events) <= events && old(states) <= states
      ensures ok ==> reply.Some? && Now().published && Now().log != [] && Last(Now().log).goal == StoreLogin(mark)
      ensures ok ==> Last(Now().log).record.credential == reply
      ensures old(script) == [] ==> (ok <==> reply.Some?)
      ensures old(script) == [] && ok ==> Found().Some? && IsNew(Found().value, reply)
    {
      hide Run, Wrote, AfterRead, AfterWrite;
      ok := PostCode(mark);
      if !ok {
        return;
      }
      if reply.None? {
        Gone();
        return false;
      }
      ok := Receive(StoreLogin(mark), reply.value);
    }

    method PostCode(mark: nat) returns (ok: bool)
      requires Valid() && Holds(Exchanging(mark))
      modifies this
      ensures Valid() && old(events) <= events && old(states) <= states && Now().issued == old(Now()).issued
      ensures if ok then Holds(Exchanged(mark)) else Away()
      ensures old(script) == [] ==> ok && script == []
    {
      hide Run, AfterRead, AfterWrite, AfterReply;
      ok := Step();
      if !ok {
        Gone();
        return;
      }
      Took(SendCode(me));
    }

    method PostToken(previous: Credential) returns (ok: bool)
      requires Valid() && Holds(Rotating(previous)) && previous.refresh.Some?
      modifies this
      ensures Valid() && old(events) <= events && old(states) <= states && Now().issued == old(Now()).issued
      ensures if ok then Holds(Renewing(previous)) else Away()
      ensures old(script) == [] ==> ok && script == []
    {
      hide Run, AfterRead, AfterWrite, AfterReply;
      ok := Step();
      if !ok {
        Gone();
        return;
      }
      Took(SendRefresh(me));
    }

    /** Where the answer of the token endpoint is awaited for this goal. */
    ghost predicate Awaits(goal: Goal, reply: Credential)
      reads this
      requires states != []
    {
      match goal
      case StoreLogin(mark) => Holds(Exchanged(mark))
      case Renew =>
        exists previous :: Holds(Renewing(previous)) && (reply.refresh.Some? ==> reply.refresh != previous.refresh)
      case _ => false
    }

    /** The token endpoint answers with a token of its own, and the answer is stored. */
    method Receive(goal: Goal, reply: Credential) returns (ok: bool)
      requires Valid() && Awaits(goal, reply)
      requires reply.refresh.Some? ==> reply.refresh.value !in Now().issued
      modifies this
      ensures Valid() && Away() && old(events) <= events && old(states) <= states
      ensures ok ==>
                && Now().published && Now().log != [] && Last(Now().log).goal == goal
                && Last(Now().log).record.credential == Some(reply) && !Last(Now().log).record.loginRequired
      ensures old(script) == [] ==> ok && Found().Some? && IsNew(Found().value, Some(reply))
    {
      hide Run, Wrote, AfterRead, AfterWrite;
      ok := Step();
      if !ok {
        Gone();
        return;
      }
      var g := Random();
      Took(Reply(me, g, reply));
      var record := Record(g, Some(reply), {}, false);
      ok := Write(goal, record);
      if ok {
        WroteRecord(goal, record);
      }
    }

    /** The endpoint answered with the refresh token it was sent. */
    predicate Echoes(previous: Credential, reply: Credential, echo: bool) {
      echo || (reply.refresh.Some? && reply.refresh == previous.refresh)
    }

    /**
     `credential`: the stored credential while it is valid, a renewed one when it
     expired. The token endpoint may answer with a token of its own, or echo the
     one it was sent.
     */
    method GetCredential(expired: bool, reply: Option<Credential>, echo: bool) returns (credential: Option<Credential>)
      requires Valid() && Away() && Now().lock.None?
      requires reply.Some? && reply.value.refresh.Some? ==> reply.value.refresh.value !in Now().issued
      modifies this
      ensures Valid() && Away() && old(events) <= events && old(states) <= states
      ensures credential.Some? ==>
                && Now().published && Now().log != [] && Last(Now().log).record.credential == credential
                && !Last(Now().log).record.loginRequired
      ensures expired ==> credential.None? || (credential == reply && !echo)
      ensures old(script) == [] && credential.Some? ==>
                old(Found()).Some? && !old(Found()).value.loginRequired && old(Found()).value.credential.Some?
      ensures old(script) == [] && old(Found()).Some? && !old(Found()).value.loginRequired && !expired ==>
                credential == old(Found()).value.credential
      ensures old(script) == [] && old(Found()).Some? && !old(Found()).value.loginRequired && expired ==>
                credential == if old(Found()).value.credential.Some? && old(Found()).value.credential.value.refresh.Some?
                                 && reply.Some? && !Echoes(old(Found()).value.credential.value, reply.value, echo)
                              then reply else None
      ensures old(script) == [] && expired && credential.Some? ==> Found().Some? && IsNew(Found().value, credential)
    {
      hide Run, Wrote, AfterWrite, AfterReply;
      Lock(Use);
      var raw := Look(Use);
      if raw.None? {
        return None;
      }
      var answer, g, at := Decide(Use, raw.value, expired);
      if answer.None? || answer.value.None? || answer.value.value.loginRequired || answer.value.value.credential.None? {
        return None;
      }
      var stored := answer.value.value.credential.value;
      if !expired {
        ReadIsLatest(at, raw.value);
        return Some(stored);
      }
      if stored.refresh.None? {
        return None;
      }
      credential := Refresh(stored, EmptyRecord(g), reply, echo);
    }

    /** What was read under the lock is the record of the last write, and it is published. */
    lemma ReadIsLatest(at: State, raw: Option<Record>)
      requires Valid() && at in states && me in at.actors && at.actors[me].Checking? && at.actors[me].raw == raw
      requires Accepted(raw, at.epoch).Some?
      ensures at.published && at.log != [] && Accepted(raw, at.epoch).value == Last(at.log).record
    {
      var i :| 0 <= i < |states| && states[i] == at;
      VaultTheorems.ReadAnswersLatestPublished(states, events, i, me);
    }

    /** `refresh`: the stored token is invalidated, then sent, and what comes back is stored. */
    method Refresh(previous: Credential, record: Record, reply: Option<Credential>, echo: bool)
      returns (credential: Option<Credential>)
      requires Valid() && Holds(Writing(Invalidate(previous), Phase.Revoke, record)) && previous.refresh.Some?
      requires reply.Some? && reply.value.refresh.Some? ==> reply.value.refresh.value !in Now().issued
      modifies this
      ensures Valid() && Away() && old(events) <= events && old(states) <= states
      ensures credential.Some? ==>
                && credential == reply && Now().published && Now().log != []
                && Last(Now().log).record.credential == reply && !Last(Now().log).record.loginRequired
      ensures echo ==> credential.None?
      ensures old(script) == [] ==>
                credential == if reply.None? || Echoes(previous, reply.value, echo) then None else reply
      ensures old(script) == [] && credential.Some? ==> Found().Some? && IsNew(Found().value, credential)
    {
      hide Run, Wrote, AfterRead, AfterWrite, AfterReply;
      credential := None;
      var ok := Write(Invalidate(previous), record);
      if ok {
        ok := PostToken(previous);
      }
      if !ok {
        return;
      }
      if reply.None? {
        Gone();
      } else if Echoes(previous, reply.value, echo) {
        Refused(previous, reply.value);
      } else {
        assert Awaits(Renew, reply.value);
        ok := Receive(Renew, reply.value);
        credential := if ok then reply else None;
      }
    }

    /** A rotation that returns the token it was sent is refused. */
    method Refused(previous: Credential, reply: Credential)
      requires Valid() && Holds(Renewing(previous)) && previous.refresh.Some?
      modifies this
      ensures Valid() && Away() && old(events) <= events && old(states) <= states
    {
      hide Run, AfterRead, AfterWrite;
      var go := Step();
      if !go {
        Gone();
        return;
      }
      Took(Reply(me, next, reply.(refresh := previous.refresh)));
    }

    /** `challenged_with_authorization`: the credential is marked, if it is the rejected one. */
    method Challenged(rejected: Token, scope: set<string>) returns (marked: bool)
      requires Valid() && Away() && Now().lock.None?
      modifies this
      ensures Valid() && Away() && old(events) <= events && old(states) <= states
      ensures marked ==>
                && Now().published && Now().log != [] && Last(Now().log).record.loginRequired
                && Last(Now().log).goal == MarkRejected(rejected) && scope <= Last(Now().log).record.pendingScope
                && Last(Now().log).record.credential.Some? && Last(Now().log).record.credential.value.access == rejected
      ensures old(script) == [] ==>
                (marked <==> old(Found()).Some? && old(Found()).value.credential.Some?
                             && old(Found()).value.credential.value.access == rejected)
      ensures old(script) == [] ==>
                if !marked then Found() == old(Found())
                else
                  && Found().Some? && Found().value.loginRequired
                  && Found().value.credential == old(Found()).value.credential
                  && Found().value.pendingScope == old(Found()).value.pendingScope + scope
    {
      hide Run, Wrote, AfterWrite, AfterReply;
      var task := Task.Challenged(rejected, scope);
      Lock(task);
      var raw := Look(task);
      if raw.None? {
        return false;
      }
      var answer, g, at := Decide(task, raw.value, false);
      if answer.None? || answer.value.None? || answer.value.value.credential.None?
         || answer.value.value.credential.value.access != rejected {
        return false;
      }
      var record := answer.value.value.(generation := g, loginRequired := true,
                                        pendingScope := answer.value.value.pendingScope + scope);
      marked := Write(MarkRejected(rejected), record);
      if marked {
        WroteRecord(MarkRejected(rejected), record);
      }
    }
  }
}
