/**
 All runs of the stdio transport around the registry: any number of callers
 (`Stdio::request`), a server answering in any order, dropped callers, a close
 at any moment, and callers of `settle`.
 */
module RegistryRuns {
  import opened Common
  import opened Decimal
  import opened Registry

  datatype Caller =
    | Ready(id: Id)                        // waits for a permit
    | Admitted(id: Id)                     // permit in hand
    | Waiting(id: Id, submitted: bool)     // registered; its guard is alive

  datatype System = System(
    core: Core,
    callers: map<Waiter, Caller>,
    parked: set<Settler>,                  // `settle` calls awaiting their notification
    // History, never read by a step.
    owner: map<Id, Waiter>,                // who made the request with an id
    registered: set<Id>,
    submitted: set<Id>,
    answers: map<Id, string>)              // first response to each registered id

  datatype Event =
    | Arrive(waiter: Waiter, id: Id)       // `id` comes fresh from the request counter
    | Admit(waiter: Waiter)
    | Enter(waiter: Waiter)
    | Submit(waiter: Waiter)
    | Quit(waiter: Waiter)
    | FromServer(message: Message)
    | Shut(error: Error)
    | Enable(settler: Settler)
    | Check(settler: Settler)
    | Wake(settler: Settler)
    | Cancel(settler: Settler)

  /** The id made from counter value `n`. */
  function RequestId(n: nat): Id {
    "ripmcp-" + Text(n)
  }

  /** Request ids are read back by `number`, so different counter values give different ids. */
  lemma RequestIdNumber(n: nat)
    requires 1 <= n < U64_LIMIT
    ensures Number(RequestId(n)) == Some(n)
  {
    ParseU64OfText(n);
    assert RequestId(n)[7..] == Text(n);
    assert "ripmcp-" <= RequestId(n);
  }

  ghost predicate Init(s: System, inFlight: nat) {
    s == System(Core(map[], {}, None, 0, inFlight, multiset{}, map[]), map[], {}, map[], {}, {}, map[])
  }

  ghost predicate Enabled(s: System, e: Event) {
    match e
    case Arrive(w, id) => w !in s.owner.Values && id !in s.owner
    case Admit(w) => w in s.callers && s.callers[w].Ready? && s.core.free > 0
    case Enter(w) => w in s.callers && s.callers[w].Admitted?
    case Submit(w) => w in s.callers && s.callers[w].Waiting? && !s.callers[w].submitted
    case Quit(w) => w in s.callers
    case FromServer(_) => true
    case Shut(_) => true
    case Enable(t) => t !in s.core.settlers
    case Check(t) => t in s.core.settlers && t !in s.parked
    case Wake(t) => t in s.parked && t in s.core.settlers && s.core.settlers[t]
    case Cancel(t) => t in s.core.settlers
  }

  ghost function Apply(s: System, e: Event): System
    requires Enabled(s, e)
  {
    match e
    case Arrive(w, id) => Arrived(s, w, id)
    case Admit(w) => AdmittedNow(s, w)
    case Enter(w) => Entered(s, w)
    case Submit(w) => Submitted(s, w)
    case Quit(w) => Quitted(s, w)
    case FromServer(m) => Heard(s, m)
    case Shut(error) => s.(core := ClosedWith(s.core, error))
    case Enable(t) => Settling(s, s.core.settlers[t := false], s.parked)
    case Check(t) =>
      if s.core.abandoned == {} then Settling(s, s.core.settlers - {t}, s.parked)
      else Settling(s, s.core.settlers, s.parked + {t})
    case Wake(t) => Settling(s, s.core.settlers[t := false], s.parked - {t})
    case Cancel(t) => Settling(s, s.core.settlers - {t}, s.parked - {t})
  }

  ghost function Arrived(s: System, w: Waiter, id: Id): System {
    s.(callers := s.callers[w := Ready(id)], owner := s.owner[id := w])
  }

  ghost function AdmittedNow(s: System, w: Waiter): System
    requires w in s.callers && s.core.free > 0
  {
    s.(core := s.core.(free := s.core.free - 1), callers := s.callers[w := Admitted(s.callers[w].id)])
  }

  ghost function Entered(s: System, w: Waiter): System
    requires w in s.callers
  {
    var id := s.callers[w].id;
    var (core, result) := Registered(s.core, id, w);
    if result.Ok? then
      s.(core := core, callers := s.callers[w := Waiting(id, false)], registered := s.registered + {id})
    else s.(core := core, callers := s.callers - {w})
  }

  ghost function Submitted(s: System, w: Waiter): System
    requires w in s.callers
  {
    var id := s.callers[w].id;
    s.(callers := s.callers[w := Waiting(id, true)], submitted := s.submitted + {id})
  }

  ghost function Heard(s: System, m: Message): System {
    s.(core := Received(s.core, m).0,
       answers := if m.Response? && m.id.Some? && m.id.value in s.registered && m.id.value !in s.answers
                  then s.answers[m.id.value := m.payload] else s.answers)
  }

  ghost function Settling(s: System, settlers: map<Settler, bool>, parked: set<Settler>): System {
    s.(core := s.core.(settlers := settlers), parked := parked)
  }

  /** A caller returns or is cancelled; what it holds is dropped. */
  ghost function Quitted(s: System, w: Waiter): System
    requires w in s.callers
  {
    match s.callers[w]
    case Ready(_) => s.(callers := s.callers - {w})
    case Admitted(_) => s.(callers := s.callers - {w}, core := s.core.(free := s.core.free + 1))
    case Waiting(id, submitted) =>
      s.(callers := s.callers - {w}, core := Dropped(s.core, id, submitted).0)
  }

  ghost predicate Run(states: seq<System>, events: seq<Event>, inFlight: nat) {
    && |states| == |events| + 1
    && Init(states[0], inFlight)
    && forall i {:trigger events[i]} :: 0 <= i < |events| ==>
         Enabled(states[i], events[i]) && states[i + 1] == Apply(states[i], events[i])
  }

  // -------------------------------------------------------------- invariant

  /** Permits in callers' hands. */
  ghost function InHand(callers: map<Waiter, Caller>): set<Waiter> {
    set w | w in callers && callers[w].Admitted?
  }

  lemma InHandUpdate(callers: map<Waiter, Caller>, w: Waiter, c: Caller)
    ensures c.Admitted? ==> InHand(callers[w := c]) == InHand(callers) + {w}
    ensures !c.Admitted? ==> InHand(callers[w := c]) == InHand(callers) - {w}
  {
  }

  lemma InHandRemove(callers: map<Waiter, Caller>, w: Waiter)
    ensures InHand(callers - {w}) == InHand(callers) - {w}
  {
  }

  lemma MapRemoveSize<K, V>(m: map<K, V>, k: K)
    requires k in m
    ensures |m - {k}| == |m| - 1
  {
    assert (m - {k}).Keys == m.Keys - {k};
  }

  ghost predicate Permits(s: System, inFlight: nat) {
    s.core.free + |InHand(s.callers)| + |s.core.pending| + |s.core.abandoned| == inFlight
  }

  /** No two requests share a caller. */
  ghost predicate OwnersOk(owner: map<Id, Waiter>) {
    forall i, j :: i in owner && j in owner && owner[i] == owner[j] ==> i == j
  }

  ghost predicate CallersOk(s: System) {
    forall w :: w in s.callers ==>
      var c := s.callers[w];
      && c.id in s.owner && s.owner[c.id] == w
      && (c.Waiting? <==> c.id in s.registered)
      && (c.id in s.submitted ==> c.Waiting?)
      && (c.Waiting? ==> (c.submitted <==> c.id in s.submitted))
  }

  ghost predicate HistoryOk(s: System) {
    s.submitted <= s.registered <= s.owner.Keys && s.answers.Keys <= s.registered
  }

  /** `last_id` bounds the number of every id registered so far. */
  ghost predicate NumbersOk(s: System) {
    forall id :: id in s.registered ==> Number(id).Some? && Number(id).value <= s.core.lastId
  }

  ghost predicate PendingOk(s: System) {
    forall id :: id in s.core.pending ==>
      && id !in s.answers && id !in s.core.abandoned && id in s.registered
      && s.core.pending[id] in s.callers && s.callers[s.core.pending[id]].Waiting?
      && s.callers[s.core.pending[id]].id == id
  }

  ghost predicate AbandonedOk(s: System) {
    forall id :: id in s.core.abandoned ==>
      id in s.submitted && id !in s.answers && (id in s.owner ==> s.owner[id] !in s.callers)
  }

  ghost predicate ClosedOk(s: System) {
    && (s.core.closed.Some? ==> s.core.pending == map[] && s.core.abandoned == {})
    && (s.core.closed.None? ==>
          forall id :: id in s.submitted && id !in s.answers ==> id in s.core.pending || id in s.core.abandoned)
  }

  ghost predicate DeliveryOk(s: System, d: Delivery) {
    && d.id in s.registered && d.id !in s.core.pending
    && d.id in s.owner && s.owner[d.id] == d.waiter
    && match d.outcome
       case Answer(payload) => d.id in s.answers && s.answers[d.id] == payload
       case Closed(_) => s.core.closed.Some?
  }

  ghost predicate DeliveriesOk(s: System) {
    forall d :: d in s.core.sent ==> DeliveryOk(s, d)
  }

  ghost predicate OncePerId(sent: multiset<Delivery>) {
    && (forall d :: d in sent ==> sent[d] == 1)
    && (forall d, e :: d in sent && e in sent && d.id == e.id ==> d == e)
  }

  /** The outcome of request `id` was sent to `w`. */
  ghost predicate Served(sent: multiset<Delivery>, w: Waiter, id: Id) {
    exists d :: d in sent && d.waiter == w && d.id == id
  }

  ghost predicate ServedOk(s: System) {
    forall w :: w in s.callers && s.callers[w].Waiting? && s.callers[w].id !in s.core.pending ==>
      Served(s.core.sent, w, s.callers[w].id)
  }

  ghost predicate SettlersOk(s: System) {
    && s.parked <= s.core.settlers.Keys
    && forall t :: t in s.parked && !s.core.settlers[t] ==> s.core.abandoned != {}
  }

  /** Where every request is. */
  ghost predicate EntriesOk(s: System) {
    CallersOk(s) && HistoryOk(s) && PendingOk(s) && AbandonedOk(s) && ClosedOk(s)
  }

  /** Which outcomes were sent, and who sleeps. */
  ghost predicate OutcomesOk(s: System) {
    DeliveriesOk(s) && OncePerId(s.core.sent) && ServedOk(s) && SettlersOk(s)
  }

  ghost predicate Inv(s: System, inFlight: nat) {
    Permits(s, inFlight) && OwnersOk(s.owner) && NumbersOk(s) && EntriesOk(s) && OutcomesOk(s)
  }

  /** Steps of callers that send nothing and touch no entry keep the outcomes. */
  lemma OutcomesFrame(s: System, t: System)
    requires OutcomesOk(s)
    requires t.core == s.core.(free := t.core.free) && t.parked == s.parked
    requires t.registered == s.registered && t.answers == s.answers
    requires forall id :: id in s.owner ==> id in t.owner && t.owner[id] == s.owner[id]
    requires forall w :: w in t.callers && t.callers[w].Waiting? ==>
               w in s.callers && s.callers[w].Waiting? && s.callers[w].id == t.callers[w].id
    ensures OutcomesOk(t)
  {
    forall d | d in t.core.sent ensures DeliveryOk(t, d) {
      assert DeliveryOk(s, d);
    }
  }

  lemma ArriveEntries(s: System, w: Waiter, id: Id)
    requires EntriesOk(s) && w !in s.owner.Values && id !in s.owner
    ensures EntriesOk(Arrived(s, w, id))
  {
    assert w !in s.callers;
  }

  lemma OwnersExtend(owner: map<Id, Waiter>, w: Waiter, id: Id)
    requires OwnersOk(owner) && w !in owner.Values && id !in owner
    ensures OwnersOk(owner[id := w])
  {
  }

  lemma ArriveInv(s: System, w: Waiter, id: Id, inFlight: nat)
    requires Inv(s, inFlight) && w !in s.owner.Values && id !in s.owner
    ensures Inv(Arrived(s, w, id), inFlight)
  {
    hide EntriesOk, OutcomesOk, OwnersOk, InHand;
    var t := Arrived(s, w, id);
    StrangerIsNoCaller(s, w);
    ArriveEntries(s, w, id);
    OwnersExtend(s.owner, w, id);
    OutcomesFrame(s, t);
    InHandUpdate(s.callers, w, Ready(id));
    assert w !in InHand(s.callers) by { InHandIsCaller(s.callers, w); }
  }

  lemma StrangerIsNoCaller(s: System, w: Waiter)
    requires EntriesOk(s) && w !in s.owner.Values
    ensures w !in s.callers
  {
  }

  lemma InHandIsCaller(callers: map<Waiter, Caller>, w: Waiter)
    requires w !in callers
    ensures w !in InHand(callers)
  {
  }

  lemma AdmitEntries(s: System, w: Waiter)
    requires EntriesOk(s) && w in s.callers && s.callers[w].Ready? && s.core.free > 0
    ensures EntriesOk(AdmittedNow(s, w))
  {
  }

  lemma AdmitInv(s: System, w: Waiter, inFlight: nat)
    requires Inv(s, inFlight) && w in s.callers && s.callers[w].Ready? && s.core.free > 0
    ensures Inv(AdmittedNow(s, w), inFlight)
  {
    AdmitEntries(s, w);
    OutcomesFrame(s, AdmittedNow(s, w));
    InHandUpdate(s.callers, w, Admitted(s.callers[w].id));
  }

  /** A caller without a pending entry goes; its permit in hand, if any, is free again. */
  ghost function Gone(s: System, w: Waiter): System
    requires w in s.callers
  {
    s.(callers := s.callers - {w},
       core := s.core.(free := s.core.free + if s.callers[w].Admitted? then 1 else 0))
  }

  lemma GoneEntries(s: System, w: Waiter)
    requires EntriesOk(s) && w in s.callers && s.callers[w].id !in s.core.pending
    ensures EntriesOk(Gone(s, w))
  {
  }

  lemma GoneInv(s: System, w: Waiter, inFlight: nat)
    requires Inv(s, inFlight) && w in s.callers && s.callers[w].id !in s.core.pending
    ensures Inv(Gone(s, w), inFlight)
  {
    GoneEntries(s, w);
    OutcomesFrame(s, Gone(s, w));
    InHandRemove(s.callers, w);
  }

  lemma RegisterEntries(s: System, w: Waiter)
    requires EntriesOk(s) && w in s.callers && s.callers[w].Admitted?
    requires Registered(s.core, s.callers[w].id, w).1.Ok?
    ensures EntriesOk(Entered(s, w))
  {
  }

  lemma RegisterOutcomes(s: System, w: Waiter)
    requires EntriesOk(s) && OutcomesOk(s) && w in s.callers && s.callers[w].Admitted?
    requires Registered(s.core, s.callers[w].id, w).1.Ok?
    ensures OutcomesOk(Entered(s, w))
  {
    forall d | d in s.core.sent ensures DeliveryOk(Entered(s, w), d) {
      assert DeliveryOk(s, d);
    }
  }

  lemma RegisterInv(s: System, w: Waiter, inFlight: nat)
    requires Inv(s, inFlight) && w in s.callers && s.callers[w].Admitted?
    requires Registered(s.core, s.callers[w].id, w).1.Ok?
    ensures Inv(Entered(s, w), inFlight)
  {
    RegisterEntries(s, w);
    RegisterOutcomes(s, w);
    RegisterPermits(s, w, inFlight);
  }

  lemma RegisterPermits(s: System, w: Waiter, inFlight: nat)
    requires Permits(s, inFlight) && NumbersOk(s) && CallersOk(s) && PendingOk(s)
    requires w in s.callers && s.callers[w].Admitted? && Registered(s.core, s.callers[w].id, w).1.Ok?
    ensures Permits(Entered(s, w), inFlight) && NumbersOk(Entered(s, w))
  {
    InHandUpdate(s.callers, w, Waiting(s.callers[w].id, false));
    assert s.callers[w].id !in s.core.pending;
  }

  lemma EnterInv(s: System, w: Waiter, inFlight: nat)
    requires Inv(s, inFlight) && w in s.callers && s.callers[w].Admitted?
    ensures Inv(Entered(s, w), inFlight)
  {
    if Registered(s.core, s.callers[w].id, w).1.Ok? {
      RegisterInv(s, w, inFlight);
    } else {
      GoneInv(s, w, inFlight);
    }
  }

  lemma SubmitEntries(s: System, w: Waiter)
    requires EntriesOk(s) && OutcomesOk(s) && w in s.callers && s.callers[w].Waiting?
    ensures EntriesOk(Submitted(s, w))
  {
    var id := s.callers[w].id;
    if s.core.closed.None? && id !in s.core.pending {
      assert Served(s.core.sent, w, id);
      var d :| d in s.core.sent && d.waiter == w && d.id == id;
      assert DeliveryOk(s, d);
    }
  }

  lemma SubmitInv(s: System, w: Waiter, inFlight: nat)
    requires Inv(s, inFlight) && w in s.callers && s.callers[w].Waiting?
    ensures Inv(Submitted(s, w), inFlight)
  {
    SubmitEntries(s, w);
    OutcomesFrame(s, Submitted(s, w));
    InHandUpdate(s.callers, w, Waiting(s.callers[w].id, true));
  }

  lemma DropPermits(s: System, w: Waiter, inFlight: nat)
    requires Permits(s, inFlight) && w in s.callers && s.callers[w].Waiting? && PendingOk(s)
    requires s.callers[w].id in s.core.pending
    ensures Permits(Quitted(s, w), inFlight)
  {
    InHandRemove(s.callers, w);
    MapRemoveSize(s.core.pending, s.callers[w].id);
  }

  lemma DropPendingEntries(s: System, w: Waiter)
    requires EntriesOk(s) && w in s.callers && s.callers[w].Waiting? && s.callers[w].id in s.core.pending
    ensures EntriesOk(Quitted(s, w))
  {
  }

  lemma DropPendingOutcomes(s: System, w: Waiter)
    requires EntriesOk(s) && OutcomesOk(s) && w in s.callers && s.callers[w].Waiting? && s.callers[w].id in s.core.pending
    ensures OutcomesOk(Quitted(s, w))
  {
    forall d | d in s.core.sent ensures DeliveryOk(Quitted(s, w), d) {
      assert DeliveryOk(s, d);
    }
  }

  lemma QuitInv(s: System, w: Waiter, inFlight: nat)
    requires Inv(s, inFlight) && Enabled(s, Quit(w))
    ensures Inv(Quitted(s, w), inFlight)
  {
    if s.callers[w].Waiting? && s.callers[w].id in s.core.pending {
      DropPendingEntries(s, w);
      DropPendingOutcomes(s, w);
      DropPermits(s, w, inFlight);
    } else {
      GoneInv(s, w, inFlight);
    }
  }

  lemma AnswerEntries(s: System, id: Id, payload: string)
    requires EntriesOk(s) && (id in s.core.pending || id in s.core.abandoned)
    ensures EntriesOk(Heard(s, Response(Some(id), payload)))
  {
  }

  lemma AnswerPermits(s: System, id: Id, payload: string, inFlight: nat)
    requires Permits(s, inFlight) && PendingOk(s) && (id in s.core.pending || id in s.core.abandoned)
    ensures Permits(Heard(s, Response(Some(id), payload)), inFlight)
  {
    if id in s.core.pending {
      MapRemoveSize(s.core.pending, id);
    }
  }

  lemma AnswerOutcomes(s: System, id: Id, payload: string)
    requires EntriesOk(s) && OutcomesOk(s) && (id in s.core.pending || id in s.core.abandoned)
    ensures OutcomesOk(Heard(s, Response(Some(id), payload)))
  {
    var t := Heard(s, Response(Some(id), payload));
    forall d | d in s.core.sent ensures d.id != id || id !in s.core.pending ensures DeliveryOk(t, d) {
      assert DeliveryOk(s, d);
    }
    if id in s.core.pending {
      assert Delivery(id, s.core.pending[id], Answer(payload)) in t.core.sent;
    }
    ServedGrows(s, t);
  }

  /** Sending more outcomes forgets no caller. */
  lemma ServedGrows(s: System, t: System)
    requires ServedOk(s) && s.core.sent <= t.core.sent && t.callers == s.callers
    requires forall id :: id in s.core.pending && id !in t.core.pending ==> Served(t.core.sent, s.core.pending[id], id)
    requires PendingOk(s) && CallersOk(s)
    ensures ServedOk(t)
  {
    forall w | w in t.callers && t.callers[w].Waiting? && t.callers[w].id !in t.core.pending
      ensures Served(t.core.sent, w, t.callers[w].id)
    {
      var id := s.callers[w].id;
      if id !in s.core.pending {
        var d :| d in s.core.sent && d.waiter == w && d.id == id;
        assert d in t.core.sent;
      }
    }
  }

  /** A frame that matches no entry changes at most the history. */
  lemma StrayInv(s: System, m: Message, inFlight: nat)
    requires Inv(s, inFlight) && Received(s.core, m).0 == s.core
    requires m.Response? && m.id.Some? ==> m.id.value !in s.core.pending && m.id.value !in s.core.abandoned
    ensures Inv(Heard(s, m), inFlight)
  {
    var t := Heard(s, m);
    forall d | d in s.core.sent ensures DeliveryOk(t, d) {
      assert DeliveryOk(s, d);
    }
  }

  lemma FromServerInv(s: System, m: Message, inFlight: nat)
    requires Inv(s, inFlight)
    ensures Inv(Heard(s, m), inFlight)
  {
    if m.Response? && m.id.Some? && (m.id.value in s.core.pending || m.id.value in s.core.abandoned) {
      AnswerEntries(s, m.id.value, m.payload);
      AnswerOutcomes(s, m.id.value, m.payload);
      AnswerPermits(s, m.id.value, m.payload, inFlight);
    } else {
      StrayInv(s, m, inFlight);
    }
  }

  lemma ShutDeliveries(s: System, error: Error)
    requires DeliveriesOk(s) && OncePerId(s.core.sent) && PendingOk(s) && CallersOk(s)
    ensures DeliveriesOk(s.(core := ClosedWith(s.core, error))) && OncePerId(s.(core := ClosedWith(s.core, error)).core.sent)
    ensures forall id :: id in s.core.pending ==> Served(s.(core := ClosedWith(s.core, error)).core.sent, s.core.pending[id], id)
  {
    var t := s.(core := ClosedWith(s.core, error));
    var failures := Failures(s.core.pending, error);
    forall d | d in t.core.sent
      ensures d in failures ==> d.id in s.core.pending && d.waiter == s.core.pending[d.id] && d !in s.core.sent
      ensures DeliveryOk(t, d)
    {
      assert d in s.core.sent ==> DeliveryOk(s, d);
    }
    forall id | id in s.core.pending ensures Served(t.core.sent, s.core.pending[id], id) {
      assert Delivery(id, s.core.pending[id], Closed(error)) in t.core.sent;
    }
    forall d, e | d in t.core.sent && e in t.core.sent && d.id == e.id ensures d == e {
      assert d in s.core.sent ==> DeliveryOk(s, d);
      assert e in s.core.sent ==> DeliveryOk(s, e);
    }
  }

  lemma ShutInv(s: System, error: Error, inFlight: nat)
    requires Inv(s, inFlight)
    ensures Inv(s.(core := ClosedWith(s.core, error)), inFlight)
  {
    var t := s.(core := ClosedWith(s.core, error));
    ShutDeliveries(s, error);
    ServedGrows(s, t);
  }

  lemma SettlingInv(s: System, settlers: map<Settler, bool>, parked: set<Settler>, inFlight: nat)
    requires Inv(s, inFlight) && SettlersOk(Settling(s, settlers, parked))
    ensures Inv(Settling(s, settlers, parked), inFlight)
  {
    var t := Settling(s, settlers, parked);
    assert forall d :: d in t.core.sent ==> DeliveryOk(s, d);
  }

  lemma StepInv(s: System, e: Event, inFlight: nat)
    requires Inv(s, inFlight) && Enabled(s, e)
    ensures Inv(Apply(s, e), inFlight)
  {
    hide EntriesOk, DeliveriesOk, OncePerId, ServedOk, OwnersOk, NumbersOk, Permits;
    match e
    case Arrive(w, id) => ArriveInv(s, w, id, inFlight);
    case Admit(w) => AdmitInv(s, w, inFlight);
    case Enter(w) => EnterInv(s, w, inFlight);
    case Submit(w) => SubmitInv(s, w, inFlight);
    case Quit(w) => QuitInv(s, w, inFlight);
    case FromServer(m) => FromServerInv(s, m, inFlight);
    case Shut(error) => ShutInv(s, error, inFlight);
    case Enable(t) => SettlingInv(s, s.core.settlers[t := false], s.parked, inFlight);
    case Check(t) =>
      if s.core.abandoned == {} {
        SettlingInv(s, s.core.settlers - {t}, s.parked, inFlight);
      } else {
        SettlingInv(s, s.core.settlers, s.parked + {t}, inFlight);
      }
    case Wake(t) => SettlingInv(s, s.core.settlers[t := false], s.parked - {t}, inFlight);
    case Cancel(t) => SettlingInv(s, s.core.settlers - {t}, s.parked - {t}, inFlight);
  }

  lemma {:induction false} RunInv(states: seq<System>, events: seq<Event>, inFlight: nat, i: nat)
    requires Run(states, events, inFlight) && i < |states|
    ensures Inv(states[i], inFlight)
  {
    hide Inv, Apply, Enabled, Init;
    if i == 0 {
      InitInv(states[0], inFlight);
    } else {
      RunInv(states, events, inFlight, i - 1);
      StepInv(states[i - 1], events[i - 1], inFlight);
    }
  }

  lemma InitInv(s: System, inFlight: nat)
    requires Init(s, inFlight)
    ensures Inv(s, inFlight)
  {
  }

  // --------------------------------------------------------------- theorems

  /** Free permits, permits in hand, pending and abandoned entries always add up to the limit. */
  lemma PermitsConserved(states: seq<System>, events: seq<Event>, inFlight: nat, i: nat)
    requires Run(states, events, inFlight) && i < |states|
    ensures states[i].core.free + |InHand(states[i].callers)| + |states[i].core.pending| + |states[i].core.abandoned| == inFlight
  {
    RunInv(states, events, inFlight, i);
  }

  /** Requests handed to the server that it has not answered yet. */
  ghost function Unanswered(s: System): set<Id> {
    set id | id in s.submitted && id !in s.answers
  }

  /**
   Before close every submitted unanswered request is in exactly one of pending
   and abandoned, so the server never holds more than `in_flight` of them.
   */
  lemma ServerHoldsAtMostInFlight(states: seq<System>, events: seq<Event>, inFlight: nat, i: nat)
    requires Run(states, events, inFlight) && i < |states| && states[i].core.closed.None?
    ensures forall id :: id in Unanswered(states[i]) ==>
              (id in states[i].core.pending <==> id !in states[i].core.abandoned)
    ensures |Unanswered(states[i])| <= inFlight
  {
    RunInv(states, events, inFlight, i);
    var s := states[i];
    SubsetSize(Unanswered(s), s.core.pending.Keys + s.core.abandoned);
    assert s.core.pending.Keys !! s.core.abandoned;
  }

  lemma {:induction false} SubsetSize<T>(a: set<T>, b: set<T>)
    requires a <= b
    ensures |a| <= |b|
  {
    if a != {} {
      var x :| x in a;
      SubsetSize(a - {x}, b - {x});
    }
  }

  /**
   A waiter gets at most one outcome over the whole run: the first response with
   its own id, or an error of a registry that is closed.
   */
  lemma AtMostOneOutcome(states: seq<System>, events: seq<Event>, inFlight: nat, i: nat, d: Delivery)
    requires Run(states, events, inFlight) && i < |states| && d in states[i].core.sent
    ensures states[i].core.sent[d] == 1
    ensures forall e :: e in states[i].core.sent && e.waiter == d.waiter ==> e == d
    ensures d.outcome.Answer? ==> d.id in states[i].answers && states[i].answers[d.id] == d.outcome.payload
    ensures d.outcome.Closed? ==> states[i].core.closed.Some?
  {
    RunInv(states, events, inFlight, i);
    assert DeliveryOk(states[i], d);
  }

  /** No registered caller is forgotten: it is pending, or its outcome was sent. */
  lemma NoWaiterForgotten(states: seq<System>, events: seq<Event>, inFlight: nat, i: nat, w: Waiter)
    requires Run(states, events, inFlight) && i < |states|
    requires w in states[i].callers && states[i].callers[w].Waiting?
    ensures var id := states[i].callers[w].id;
            (id in states[i].core.pending && states[i].core.pending[id] == w) ||
            Served(states[i].core.sent, w, id)
  {
    RunInv(states, events, inFlight, i);
  }

  /** What is closed stays closed, what was sent stays sent, first answers never change. */
  ghost predicate Kept(s: System, t: System) {
    && (s.core.closed.Some? ==> t.core.closed == s.core.closed)
    && s.core.sent <= t.core.sent
    && forall id :: id in s.answers ==> id in t.answers && t.answers[id] == s.answers[id]
  }

  lemma StepKeeps(s: System, e: Event)
    requires Enabled(s, e)
    ensures Kept(s, Apply(s, e))
  {
    hide Failures, Number, NotifyAll;
  }

  lemma RunStepKeeps(states: seq<System>, events: seq<Event>, inFlight: nat, i: nat)
    requires Run(states, events, inFlight) && i < |events|
    ensures Kept(states[i], states[i + 1])
  {
    StepKeeps(states[i], events[i]);
  }

  lemma KeptTransitive(s: System, t: System, u: System)
    requires Kept(s, t) && Kept(t, u)
    ensures Kept(s, u)
  {
  }

  lemma {:induction false} HistoryKept(states: seq<System>, events: seq<Event>, inFlight: nat, i: nat, j: nat)
    requires Run(states, events, inFlight) && i <= j < |states|
    ensures Kept(states[i], states[j])
    decreases j
  {
    if i < j {
      HistoryKept(states, events, inFlight, i, j - 1);
      RunStepKeeps(states, events, inFlight, j - 1);
      KeptTransitive(states[i], states[j - 1], states[j]);
    }
  }

  /** A closed registry stays closed, with its first error, and empty. */
  lemma ClosedStaysClosed(states: seq<System>, events: seq<Event>, inFlight: nat, i: nat, j: nat)
    requires Run(states, events, inFlight) && i <= j < |states| && states[i].core.closed.Some?
    ensures states[j].core.closed == states[i].core.closed
    ensures states[j].core.pending == map[] && states[j].core.abandoned == {}
  {
    HistoryKept(states, events, inFlight, i, j);
    RunInv(states, events, inFlight, j);
  }

  /** A `settle` call that sleeps un-notified sleeps for a reason: something is abandoned. */
  lemma ParkedMeansAbandoned(states: seq<System>, events: seq<Event>, inFlight: nat, i: nat, t: Settler)
    requires Run(states, events, inFlight) && i < |states|
    requires t in states[i].parked && (t in states[i].core.settlers ==> !states[i].core.settlers[t])
    ensures states[i].core.abandoned != {}
  {
    RunInv(states, events, inFlight, i);
  }

  /** A response to any id that was ever registered is never treated as a protocol violation. */
  lemma RegisteredIdAccepted(states: seq<System>, events: seq<Event>, inFlight: nat, i: nat, id: Id, payload: string)
    requires Run(states, events, inFlight) && i < |states| && id in states[i].registered
    ensures Received(states[i].core, Response(Some(id), payload)).1 == Ok(())
  {
    RunInv(states, events, inFlight, i);
  }

  // ------------------------------------------- what each party is told

  /** `last_id` is the number of some registered id, once there is one. */
  ghost predicate LastIdAttained(s: System) {
    s.core.lastId == 0 || exists id :: id in s.registered && Number(id) == Some(s.core.lastId)
  }

  lemma StepAttains(s: System, e: Event)
    requires Enabled(s, e) && LastIdAttained(s)
    ensures LastIdAttained(Apply(s, e))
  {
    hide Number, Failures, NotifyAll;
    var t := Apply(s, e);
    if t.core.lastId != s.core.lastId {
      assert Number(s.callers[e.waiter].id) == Some(t.core.lastId);
    } else if s.core.lastId != 0 {
      var id :| id in s.registered && Number(id) == Some(s.core.lastId);
      assert id in t.registered;
    }
  }

  lemma {:induction false} RunAttains(states: seq<System>, events: seq<Event>, inFlight: nat, i: nat)
    requires Run(states, events, inFlight) && i < |states|
    ensures LastIdAttained(states[i])
  {
    hide Apply, Enabled, LastIdAttained;
    if i == 0 {
      InitAttains(states[0], inFlight);
    } else {
      RunAttains(states, events, inFlight, i - 1);
      StepAttains(states[i - 1], events[i - 1]);
    }
  }

  lemma InitAttains(s: System, inFlight: nat)
    requires Init(s, inFlight)
    ensures LastIdAttained(s)
  {
  }

  /**
   A response is taken without complaint if and only if its id carries a number no
   higher than that of some request registered before; any other is a protocol error.
   */
  lemma ResponseAcceptedIff(states: seq<System>, events: seq<Event>, inFlight: nat, i: nat, id: Id, payload: string)
    requires Run(states, events, inFlight) && i < |states|
    ensures Received(states[i].core, Response(Some(id), payload)).1.Ok? <==>
            Number(id).Some? && exists r :: r in states[i].registered && Number(r).Some? && Number(r).value >= Number(id).value
    ensures Received(states[i].core, Response(Some(id), payload)).1.Err? ==>
            Received(states[i].core, Response(Some(id), payload)) == (states[i].core, Err(ProtocolError))
  {
    hide Number;
    RunInv(states, events, inFlight, i);
    RunAttains(states, events, inFlight, i);
    var s := states[i];
    if id in s.core.pending || id in s.core.abandoned {
      assert id in s.registered;
    } else if Number(id).Some? && Number(id).value <= s.core.lastId {
      NumbersArePositive(id);
      var r :| r in s.registered && Number(r) == Some(s.core.lastId);
    }
  }

  lemma NumbersArePositive(id: Id)
    ensures Number(id).Some? ==> Number(id).value > 0
  {
  }

  /**
   Dropping a registered request calls for a cancellation if and only if it was
   submitted, has no answer yet, and the registry is open; just then it becomes abandoned.
   */
  lemma CancelledIff(states: seq<System>, events: seq<Event>, inFlight: nat, i: nat, w: Waiter)
    requires Run(states, events, inFlight) && i < |states|
    requires w in states[i].callers && states[i].callers[w].Waiting?
    ensures var s, c := states[i], states[i].callers[w];
            var (core, cancel) := Dropped(s.core, c.id, c.submitted);
            && (cancel <==> c.submitted && c.id !in s.answers && s.core.closed.None?)
            && (cancel <==> c.id in core.abandoned)
            && c.id !in core.pending
  {
    RunInv(states, events, inFlight, i);
    var s, id := states[i], states[i].callers[w].id;
  }

  /** Nothing is registered after a close, and the caller is told the error of the first one. */
  lemma ClosedRefuses(states: seq<System>, events: seq<Event>, inFlight: nat, h: nat, i: nat, id: Id, w: Waiter)
    requires Run(states, events, inFlight) && h < i < |states| && events[h].Shut? && states[h].core.closed.None?
    ensures Registered(states[i].core, id, w).1 == Err(events[h].error)
    ensures Registered(states[i].core, id, w).0 == states[i].core.(free := states[i].core.free + 1)
  {
    ClosedStaysClosed(states, events, inFlight, h + 1, i);
  }

  /** Before a close every id made from the counter is registered, for its own caller. */
  lemma OpenAccepts(s: System, n: nat, w: Waiter)
    requires s.core.closed.None? && 1 <= n < U64_LIMIT
    ensures var (core, result) := Registered(s.core, RequestId(n), w);
            result.Ok? && RequestId(n) in core.pending && core.pending[RequestId(n)] == w && core.free == s.core.free
  {
    RequestIdNumber(n);
  }

  /** While its request is pending, a waiter gets the very response with its id. */
  lemma PendingIsAnswered(s: System, id: Id, payload: string)
    requires id in s.core.pending
    ensures var (core, result) := Received(s.core, Response(Some(id), payload));
            && result.Ok? && id !in core.pending && core.free == s.core.free + 1
            && core.sent == s.core.sent + multiset{Delivery(id, s.core.pending[id], Answer(payload))}
  {
  }

  /** Only responses and closes send anything. */
  lemma SentByStep(s: System, e: Event)
    requires Enabled(s, e)
    ensures e.Shut? ==> Apply(s, e).core.sent == s.core.sent + multiset(Failures(s.core.pending, e.error))
    ensures !e.Shut? && !e.FromServer? ==> Apply(s, e).core.sent == s.core.sent
  {
    hide Number, NotifyAll, Failures;
  }

  lemma SentByResponse(c: Core, m: Message, d: Delivery)
    requires d in Received(c, m).0.sent && d.outcome.Closed?
    ensures d in c.sent
  {
    hide Number, NotifyAll;
  }

  lemma StepCloses(s: System, e: Event, d: Delivery)
    requires Enabled(s, e) && d in Apply(s, e).core.sent && d !in s.core.sent && d.outcome.Closed?
    ensures e == Shut(d.outcome.error) && d.id in s.core.pending && s.core.pending[d.id] == d.waiter
  {
    hide Received;
    SentByStep(s, e);
    if e.FromServer? {
      SentByResponse(s.core, e.message, d);
    } else if e.Shut? {
      hide Apply, Enabled;
      assert d in Failures(s.core.pending, e.error);
    }
  }

  /** A waiter that gets an error of the registry was pending when it was closed with that very error. */
  lemma {:induction false} ClosedOutcomeIsOfAClose(
    states: seq<System>, events: seq<Event>, inFlight: nat, i: nat, d: Delivery) returns (h: nat)
    requires Run(states, events, inFlight) && i < |states| && d in states[i].core.sent && d.outcome.Closed?
    ensures h < i && events[h] == Shut(d.outcome.error)
    ensures d.id in states[h].core.pending && states[h].core.pending[d.id] == d.waiter
  {
    hide Apply, Enabled, Init;
    if i == 0 {
      assert false by { NothingSent(states[0], inFlight, d); }
    } else if d in states[i - 1].core.sent {
      h := ClosedOutcomeIsOfAClose(states, events, inFlight, i - 1, d);
    } else {
      h := i - 1;
      StepCloses(states[h], events[h], d);
    }
  }

  lemma NothingSent(s: System, inFlight: nat, d: Delivery)
    requires Init(s, inFlight)
    ensures d !in s.core.sent
  {
  }
}
