/** What every run of the vault guarantees. */
module VaultTheorems {
  import opened Common
  import opened Vault
  import opened VaultInvariant

  /** The history only grows. */
  ghost predicate Grows(s: State, t: State) {
    s.log <= t.log && s.sent <= t.sent
  }

  lemma StepGrows(s: State, e: Event)
    requires Enabled(s, e)
    ensures Grows(s, Apply(s, e))
  {
  }

  lemma RunStepGrows(states: seq<State>, events: seq<Event>, i: nat)
    requires Run(states, events) && i < |events|
    ensures Grows(states[i], states[i + 1])
  {
    StepGrows(states[i], events[i]);
  }

  lemma GrowsTransitive(s: State, t: State, u: State)
    requires Grows(s, t) && Grows(t, u)
    ensures Grows(s, u)
  {
  }

  lemma {:induction false} LogGrows(states: seq<State>, events: seq<Event>, i: nat, j: nat)
    requires Run(states, events) && i <= j < |states|
    ensures Grows(states[i], states[j])
    decreases j
  {
    if i < j {
      LogGrows(states, events, i, j - 1);
      RunStepGrows(states, events, j - 1);
      GrowsTransitive(states[i], states[j - 1], states[j]);
    }
  }

  /** A record is found exactly while it is stored and no epoch file says otherwise. */
  lemma FoundUnlessContradicted(raw: Option<Record>, epoch: Option<Generation>, r: Record)
    ensures Accepted(raw, epoch) == Some(r) <==> raw == Some(r) && (epoch == None || epoch == Some(r.generation))
  {
  }

  /** A record with the generation of the last started write is that write's record. */
  lemma VisibleIsLatest(states: seq<State>, events: seq<Event>, i: nat)
    requires Run(states, events) && i < |states| && Visible(states[i]).Some?
    ensures states[i].published && states[i].log != []
    ensures Visible(states[i]).value == Last(states[i].log).record
  {
    RunInv(states, events, i);
    AcceptedIsLatest(states[i], states[i].store);
  }

  /**
   `read` under the lock answers only with the record of the most recently
   started write, and only after that write published its generation, although
   a late write may have replaced the keyring record between its two steps.
   */
  lemma ReadAnswersLatestPublished(states: seq<State>, events: seq<Event>, i: nat, a: Actor)
    requires Run(states, events) && i < |states|
    requires a in states[i].actors && states[i].actors[a].Checking?
    requires Accepted(states[i].actors[a].raw, states[i].epoch).Some?
    ensures states[i].lock == Some(a) && states[i].published && states[i].log != []
    ensures Accepted(states[i].actors[a].raw, states[i].epoch).value == Last(states[i].log).record
  {
    RunInv(states, events, i);
    assert PcOk(states[i], states[i].actors[a]);
    AcceptedIsLatest(states[i], states[i].actors[a].raw);
  }

  /**
   Once a write has started, no record visible before is ever visible again:
   a record seen at two moments was never replaced in between.
   */
  lemma NoRecordReappears(states: seq<State>, events: seq<Event>, i: nat, j: nat, k: nat)
    requires Run(states, events) && i <= j <= k < |states|
    requires Visible(states[i]).Some? && Visible(states[k]) == Visible(states[i])
    ensures states[i].log == states[j].log == states[k].log
    ensures Visible(states[j]).Some? ==> Visible(states[j]) == Visible(states[i])
  {
    VisibleIsLatest(states, events, i);
    VisibleIsLatest(states, events, k);
    LogGrows(states, events, i, j);
    LogGrows(states, events, j, k);
    RunInv(states, events, k);
    var early, late := |states[i].log| - 1, |states[k].log| - 1;
    assert states[k].log[early].record.generation == states[k].log[late].record.generation;
    assert early == late;
    if Visible(states[j]).Some? {
      VisibleIsLatest(states, events, j);
    }
  }

  ghost predicate Publishing(s: State, a: Actor, record: Record) {
    a in s.actors && s.actors[a].Writing? && s.actors[a].phase.Publish? && s.actors[a].record == record
  }

  lemma ReadersDoNotPublish(
    s: State, b: Actor, task: Task, answer: Option<Record>, g: Generation, expired: bool, a: Actor, record: Record)
    requires Publishing(AfterRead(s, b, task, answer, g, expired), a, record)
    ensures a != b && Publishing(s, a, record)
  {
  }

  lemma RepliesDoNotPublish(s: State, b: Actor, g: Generation, c: Credential, a: Actor, record: Record)
    requires b in s.actors && (s.actors[b].Renewing? || s.actors[b].Exchanged?)
    requires Publishing(AfterReply(s, b, g, c), a, record)
    ensures a != b && Publishing(s, a, record)
  {
  }

  lemma WritersDoNotPublishAgain(s: State, b: Actor, goal: Goal, written: Record, a: Actor, record: Record)
    requires Publishing(AfterWrite(s, b, goal, written), a, record)
    ensures a != b && Publishing(s, a, record)
  {
  }

  lemma StepReadsBack(s: State, e: Event, a: Actor, record: Record)
    requires Enabled(s, e) && Publishing(Apply(s, e), a, record)
    ensures Publishing(s, a, record) || (e == ReadStoreBack(a) && s.store == Some(record))
  {
    hide AfterRead, AfterReply, AfterWrite, Accepted, Fresh, EmptyRecord;
    match e {
      case Acquire(b, _) =>
      case Resume(b) =>
      case ReadStore(b, _) =>
      case StartWrite(b, _) =>
      case WriteStore(b) =>
      case ReadStoreBack(b) =>
      case CheckEpoch(b, g, expired) =>
        ReadersDoNotPublish(s, b, s.actors[b].task, Accepted(s.actors[b].raw, s.epoch), g, expired, a, record);
      case Reply(b, g, c) => RepliesDoNotPublish(s, b, g, c, a, record);
      case PublishGeneration(b) =>
        var pc := s.actors[b];
        WritersDoNotPublishAgain(
          s.(epoch := Some(pc.record.generation), published := true), b, pc.goal, pc.record, a, record);
      case _ =>
    }
  }

  /** A generation is published only after the keyring was read back and held exactly its record. */
  lemma {:induction false} PublishedWasReadBack(
    states: seq<State>, events: seq<Event>, i: nat, a: Actor, record: Record) returns (h: nat)
    requires Run(states, events) && i < |states| && Publishing(states[i], a, record)
    ensures h < i && events[h] == ReadStoreBack(a) && states[h].store == Some(record)
  {
    hide Apply, Enabled, Publishing;
    if i == 0 {
      assert false by { NobodyPublishes(states[0], a, record); }
    } else {
      StepReadsBack(states[i - 1], events[i - 1], a, record);
      if events[i - 1] == ReadStoreBack(a) && states[i - 1].store == Some(record) {
        h := i - 1;
      } else {
        h := PublishedWasReadBack(states, events, i - 1, a, record);
      }
    }
  }

  lemma NobodyPublishes(s: State, a: Actor, record: Record)
    requires Init(s)
    ensures !Publishing(s, a, record)
  {
  }

  /** Unless something interferes, a write ends with its record visible. */
  lemma WriteCompletes(s: State, a: Actor, g: Generation)
    requires Inv(s) && Enabled(s, StartWrite(a, g))
    ensures var s1 := Apply(s, StartWrite(a, g));
            Enabled(s1, WriteStore(a)) &&
            var s2 := Apply(s1, WriteStore(a));
            Enabled(s2, ReadStoreBack(a)) &&
            var s3 := Apply(s2, ReadStoreBack(a));
            Enabled(s3, PublishGeneration(a)) &&
            Visible(s1).None? && Visible(s2).None? && Visible(s3).None? &&
            Visible(Apply(s3, PublishGeneration(a))) == Some(s.actors[a].record)
  {
    assert PcOk(s, s.actors[a]);
    assert s.store.Some? ==> CopyOk(s, s.store.value);
    hide Inv, PcOk, CopyOk;
    WriteSteps(s, a, g);
  }

  lemma WriteSteps(s: State, a: Actor, g: Generation)
    requires Enabled(s, StartWrite(a, g)) && s.actors[a].record.generation != g
    requires s.store.Some? ==> s.store.value.generation != g
    ensures var s1 := Apply(s, StartWrite(a, g));
            Enabled(s1, WriteStore(a)) &&
            var s2 := Apply(s1, WriteStore(a));
            Enabled(s2, ReadStoreBack(a)) &&
            var s3 := Apply(s2, ReadStoreBack(a));
            Enabled(s3, PublishGeneration(a)) &&
            Visible(s1).None? && Visible(s2).None? && Visible(s3).None? &&
            Visible(Apply(s3, PublishGeneration(a))) == Some(s.actors[a].record)
  {
  }

  function SentToken(s: State, e: Event): Token
    requires e.SendRefresh? && e.actor in s.actors && s.actors[e.actor].Rotating?
    requires s.actors[e.actor].previous.refresh.Some?
  {
    s.actors[e.actor].previous.refresh.value
  }

  /** No refresh token is ever sent twice, whoever sends it. */
  lemma RefreshTokenSentAtMostOnce(states: seq<State>, events: seq<Event>, i: nat, j: nat)
    requires Run(states, events) && i < j < |events|
    requires events[i].SendRefresh? && events[j].SendRefresh?
    ensures Enabled(states[i], events[i]) && Enabled(states[j], events[j])
    ensures SentToken(states[i], events[i]) != SentToken(states[j], events[j])
  {
    LogGrows(states, events, i + 1, j);
    RunInv(states, events, j + 1);
    var t := SentToken(states[i], events[i]);
    assert states[i + 1].sent[|states[i].sent|] == t;
    assert states[j + 1].sent[|states[i].sent|] == t;
    assert states[j + 1].sent[|states[j].sent|] == SentToken(states[j], events[j]);
  }

  /**
   When a refresh token is sent its record was already replaced by a published
   empty one, and no record visible from then on contains the token.
   */
  lemma InvalidatedBeforeSent(states: seq<State>, events: seq<Event>, i: nat, j: nat)
    requires Run(states, events) && i < |events| && events[i].SendRefresh? && i <= j < |states|
    ensures Enabled(states[i], events[i])
    ensures states[i].published && states[i].log != [] && Last(states[i].log).record.credential.None?
    ensures Visible(states[j]).Some? ==>
              SentToken(states[i], events[i]) !in Refresh(Visible(states[j]).value)
  {
    RunInv(states, events, i);
    assert PcOk(states[i], states[i].actors[events[i].actor]);
    InvalidatedIsEmpty(states[i].log);
    if Visible(states[j]).Some? {
      VisibleIsLatest(states, events, j);
      if i < j {
        LogGrows(states, events, i + 1, j);
        RunInv(states, events, j);
        assert states[i + 1].sent[|states[i].sent|] == SentToken(states[i], events[i]);
        assert states[j].sent[|states[i].sent|] == SentToken(states[i], events[i]);
        assert Unsent(states[j], Last(states[j].log).record);
      }
    }
  }

  /** The browser login of `a` that began as write number `mark`. */
  ghost predicate LoginBegan(s: State, a: Actor, mark: nat) {
    a in s.actors && s.actors[a].Browsing? && s.actors[a].mark == mark
  }

  /**
   If any write starts after a login began, that login neither sends its
   authorization code nor starts a write of a credential.
   */
  lemma DisturbedLoginStops(states: seq<State>, events: seq<Event>, a: Actor, mark: nat, i: nat, j: nat, k: nat)
    requires Run(states, events) && i <= j < k < |events|
    requires LoginBegan(states[i], a, mark) && events[j].StartWrite?
    ensures events[k] == SendCode(a) ==> states[k].actors[a].mark != mark
    ensures events[k].StartWrite? && events[k].actor == a ==> states[k].actors[a].goal != StoreLogin(mark)
  {
    hide Inv, Apply;
    RunInv(states, events, i);
    MarkIsPast(states[i], a);
    LogGrows(states, events, i, j);
    LogGrows(states, events, j + 1, k);
    StartGrows(states, events, j);
    RunInv(states, events, k);
    if events[k] == SendCode(a) || (events[k].StartWrite? && events[k].actor == a) {
      assert Enabled(states[k], events[k]);
      MarkIsCurrent(states[k], a);
    }
  }

  lemma MarkIsPast(s: State, a: Actor)
    requires Inv(s) && a in s.actors && s.actors[a].Browsing?
    ensures s.actors[a].mark <= |s.log|
  {
    assert PcOk(s, s.actors[a]);
  }

  /** A login that may still send its code, or store what it got, is the last write started. */
  lemma MarkIsCurrent(s: State, a: Actor)
    requires Inv(s) && a in s.actors
    ensures s.actors[a].Exchanging? ==> s.actors[a].mark == |s.log|
    ensures s.actors[a].Writing? && s.actors[a].phase.Revoke? && s.actors[a].goal.StoreLogin? ==>
              s.actors[a].goal.mark == |s.log|
  {
    assert PcOk(s, s.actors[a]);
  }

  lemma StartGrows(states: seq<State>, events: seq<Event>, j: nat)
    requires Run(states, events) && j < |events| && events[j].StartWrite?
    ensures |states[j + 1].log| == |states[j].log| + 1
  {
    assert Enabled(states[j], events[j]) && states[j + 1] == Apply(states[j], events[j]);
  }

  /** A login's code goes out, and its credential is written, directly after its own first write. */
  lemma LoginWritesFollowItsBegin(states: seq<State>, events: seq<Event>, k: nat)
    requires Run(states, events) && k < |events| && events[k].SendCode?
    ensures Enabled(states[k], events[k]) && states[k].published
    ensures states[k].log != [] && Last(states[k].log).goal.BeginLogin?
    ensures |states[k].log| == states[k].actors[events[k].actor].mark
  {
    RunInv(states, events, k);
    assert PcOk(states[k], states[k].actors[events[k].actor]);
  }

  /**
   A rejected access token marks only the credential that holds it: the marked
   record is the latest one, unchanged but for the mark, and the latest
   credential is the rejected one.
   */
  lemma RejectionMarksItsOwnCredential(states: seq<State>, events: seq<Event>, i: nat)
    requires Run(states, events) && i < |events| && events[i].StartWrite?
    requires Enabled(states[i], events[i]) && states[i].actors[events[i].actor].goal.MarkRejected?
    ensures var pc := states[i].actors[events[i].actor];
            && states[i].log != [] && pc.record.loginRequired
            && pc.record.credential == Last(states[i].log).record.credential
            && pc.record.credential.Some? && pc.record.credential.value.access == pc.goal.rejected
  {
    RunInv(states, events, i);
    assert PcOk(states[i], states[i].actors[events[i].actor]);
  }

  /** Every history is a chain: each write is justified by the one started just before it. */
  lemma HistoryIsChain(states: seq<State>, events: seq<Event>, i: nat)
    requires Run(states, events) && i < |states|
    ensures Chain(states[i].log) && Distinct(states[i].log)
  {
    RunInv(states, events, i);
  }
}
