/**
 The stdio request registry (src/mcp/stdio/registry.rs): requests move from
 pending to answered, or to abandoned when their caller gives up after
 submission. Every pending and every abandoned entry keeps its admission permit.
 */
module Registry {
  import opened Common
  import opened Decimal

  type Id = string
  type Waiter = nat   // one oneshot channel
  type Settler = nat  // one call of `settle`

  datatype Error = ProtocolError | ConnectionError | OtherError(message: string)

  /** What the decoder made of one frame from the server. */
  datatype Message =
    | Response(id: Option<Id>, payload: string)
    | Notification
    | Undecodable(error: Error)

  datatype Outcome = Answer(payload: string) | Closed(error: Error)

  /** One send on the channel of the request `id`. */
  datatype Delivery = Delivery(id: Id, waiter: Waiter, outcome: Outcome)

  datatype Core = Core(
    pending: map<Id, Waiter>,
    abandoned: set<Id>,
    closed: Option<Error>,
    lastId: nat,
    free: nat,
    sent: multiset<Delivery>,
    settlers: map<Settler, bool>)  // enabled `settled` futures; true once notified

  /** `number`: the counter value inside a request id. */
  function Number(id: Id): Option<nat> {
    if "ripmcp-" <= id && ParseU64(id[7..]).Some? && ParseU64(id[7..]).value > 0 then ParseU64(id[7..]) else None
  }

  function Max(a: nat, b: nat): nat {
    if a < b then b else a
  }

  function NotifyAll(settlers: map<Settler, bool>): map<Settler, bool> {
    map t | t in settlers :: true
  }

  // The effect of each critical section on the registry, the semaphore and the channels.

  function Registered(c: Core, id: Id, waiter: Waiter): (Core, Result<(), Error>) {
    if c.closed.Some? then (c.(free := c.free + 1), Err(c.closed.value))
    else if Number(id).None? then (c.(free := c.free + 1), Err(ProtocolError))
    else (c.(lastId := Max(c.lastId, Number(id).value), pending := c.pending[id := waiter]), Ok(()))
  }

  function Received(c: Core, m: Message): (Core, Result<(), Error>) {
    match m
    case Undecodable(error) => (c, Err(error))
    case Notification => (c, Ok(()))
    case Response(None, _) => (c, Err(ProtocolError))
    case Response(Some(id), payload) =>
      if id in c.pending then
        (c.(pending := c.pending - {id}, free := c.free + 1,
            sent := c.sent + multiset{Delivery(id, c.pending[id], Answer(payload))}), Ok(()))
      else if id in c.abandoned then
        (c.(abandoned := c.abandoned - {id}, free := c.free + 1, settlers := NotifyAll(c.settlers)), Ok(()))
      else if Number(id).None? || Number(id).value > c.lastId then (c, Err(ProtocolError))
      else (c, Ok(()))
  }

  function Failures(pending: map<Id, Waiter>, error: Error): set<Delivery> {
    set id | id in pending :: Delivery(id, pending[id], Closed(error))
  }

  function ClosedWith(c: Core, error: Error): Core {
    c.(closed := if c.closed.None? then Some(error) else c.closed,
       pending := map[], abandoned := {},
       free := c.free + |c.pending| + |c.abandoned|,
       sent := c.sent + multiset(Failures(c.pending, error)),
       settlers := NotifyAll(c.settlers))
  }

  /** Dropping the guard of a request; the answer says whether a cancellation is due. */
  function Dropped(c: Core, id: Id, submitted: bool): (Core, bool) {
    if id !in c.pending then (c, false)
    else if !submitted then (c.(pending := c.pending - {id}, free := c.free + 1), false)
    else (c.(pending := c.pending - {id}, abandoned := c.abandoned + {id}), true)
  }

  /** The registry object together with the semaphore and the channels it owns ends of. */
  class Registry {
    var pending: map<Id, Waiter>
    var abandoned: set<Id>
    var closed: Option<Error>
    var lastId: nat
    var free: nat
    var sent: multiset<Delivery>
    var settlers: map<Settler, bool>

    constructor (inFlight: nat)
      ensures Abs() == Core(map[], {}, None, 0, inFlight, multiset{}, map[])
    {
      pending, abandoned, closed, lastId := map[], {}, None, 0;
      free, sent, settlers := inFlight, multiset{}, map[];
    }

    function Abs(): Core
      reads this
    {
      Core(pending, abandoned, closed, lastId, free, sent, settlers)
    }

    method NotifyWaiters()
      modifies this`settlers
      ensures settlers == NotifyAll(old(settlers))
    {
      settlers := map t | t in settlers :: true;
    }

    /** `register`: the caller hands over its permit, which returns to the semaphore on error. */
    method Register(id: Id, waiter: Waiter) returns (result: Result<(), Error>)
      modifies this
      ensures (Abs(), result) == Registered(old(Abs()), id, waiter)
    {
      if closed.Some? {
        free := free + 1;
        return Err(closed.value);
      }
      var number := Number(id);
      if number.None? {
        free := free + 1;
        return Err(ProtocolError);
      }
      lastId := Max(lastId, number.value);
      pending := pending[id := waiter];
      return Ok(());
    }

    method Receive(message: Message) returns (result: Result<(), Error>)
      modifies this
      ensures (Abs(), result) == Received(old(Abs()), message)
    {
      match message {
        case Undecodable(error) => return Err(error);
        case Notification => return Ok(());
        case Response(None, _) => return Err(ProtocolError);
        case Response(Some(id), payload) =>
          if id in pending {
            sent := sent + multiset{Delivery(id, pending[id], Answer(payload))};
            pending := pending - {id};
            free := free + 1;
          } else if id in abandoned {
            abandoned := abandoned - {id};
            free := free + 1;
            NotifyWaiters();
          } else {
            var number := Number(id);
            if number.None? || number.value > lastId {
              return Err(ProtocolError);
            }
          }
          return Ok(());
      }
    }

    /** The drain loop of `close`, in whatever order the map iterates. */
    method Drain(entries: map<Id, Waiter>, error: Error)
      modifies this`free, this`sent
      ensures free == old(free) + |entries|
      ensures sent == old(sent) + multiset(Failures(entries, error))
    {
      var rest := entries;
      while rest != map[]
        invariant free + |rest| == old(free) + |entries|
        invariant sent + multiset(Failures(rest, error)) == old(sent) + multiset(Failures(entries, error))
        decreases |rest|
      {
        var id :| id in rest;
        FailuresRemove(rest, id, error);
        sent := sent + multiset{Delivery(id, rest[id], Closed(error))};
        rest := rest - {id};
        free := free + 1;
      }
    }

    method Close(error: Error)
      modifies this
      ensures Abs() == ClosedWith(old(Abs()), error)
    {
      hide Failures, NotifyAll;
      if closed.None? {
        closed := Some(error);
      }
      Drain(pending, error);
      pending := map[];
      free := free + |abandoned|;
      abandoned := {};
      NotifyWaiters();
    }

    method Drop(id: Id, submitted: bool) returns (cancel: bool)
      modifies this
      ensures (Abs(), cancel) == Dropped(old(Abs()), id, submitted)
    {
      var present := id in pending;
      assert !present ==> pending - {id} == pending;
      pending := pending - {id};
      if present && !submitted {
        free := free + 1;
      }
      if !submitted {
        return false;
      }
      if present {
        abandoned := abandoned + {id};
        return true;
      }
      return false;
    }

    method HasAbandoned() returns (yes: bool)
      ensures yes <==> Abs().abandoned != {}
    {
      yes := abandoned != {};
    }

    /** `settle`, first half of a turn: from here on a notification is not missed. */
    method EnableSettler(t: Settler)
      modifies this`settlers
      ensures Abs() == old(Abs()).(settlers := old(settlers)[t := false])
    {
      settlers := settlers[t := false];
    }

    /**
     `settle`, second half: it returns only if nothing is abandoned; otherwise it
     awaits, and a notification that came since it was enabled is still there.
     */
    method CheckSettled(t: Settler) returns (settled: bool)
      modifies this`settlers
      ensures settled <==> old(abandoned) == {}
      ensures Abs() == old(Abs()).(settlers := if settled then old(settlers) - {t} else old(settlers))
    {
      var waits := HasAbandoned();
      if waits {
        return false;
      }
      settlers := settlers - {t};
      return true;
    }
  }

  lemma FailuresRemove(pending: map<Id, Waiter>, id: Id, error: Error)
    requires id in pending
    ensures |pending - {id}| == |pending| - 1
    ensures multiset(Failures(pending, error)) ==
            multiset(Failures(pending - {id}, error)) + multiset{Delivery(id, pending[id], Closed(error))}
  {
    var one := Delivery(id, pending[id], Closed(error));
    assert (pending - {id}).Keys == pending.Keys - {id};
    forall d | d in Failures(pending, error) && d != one
      ensures d in Failures(pending - {id}, error)
    {
      assert d.id in pending && d == Delivery(d.id, pending[d.id], Closed(error));
      assert d.id in pending - {id};
    }
    assert Failures(pending, error) == Failures(pending - {id}, error) + {one};
    assert one !in Failures(pending - {id}, error);
  }
}
