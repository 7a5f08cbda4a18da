/**
 Carrying a plan out while the journal records it (src/cleanup/journal.rs): each
 planned resource is looked up again, checked again, removed, and marked.
 */
module CleanupJournal {
  import opened Common
  import opened CleanupPlan
  import opened CleanupTheorems

  function Mark(j: Journal, id: string, i: nat, state: Cleanup): Journal
    requires IsPlace(j, Entry(id, i))
  {
    var entry := j.installations[id];
    var resources := entry.resources[i := entry.resources[i].(cleanup := state)];
    j.(installations := j.installations[id := entry.(resources := resources)])
  }

  /** The first resource of that identity. */
  function Position(resources: seq<Resource>, identity: Identity): (k: nat)
    ensures k <= |resources|
    ensures k < |resources| ==> resources[k].identity == identity
  {
    if resources == [] || resources[0].identity == identity then 0 else 1 + Position(resources[1..], identity)
  }

  /**
   What the world does while one resource is handled: the artifact ledger read
   then, whether the removal works, and whether the journal is written.
   */
  datatype Attempt = Attempt(ledger: Ledger, removed: bool, written: bool, saved: bool)

  datatype Verdict = Deleted | Refused | NotRemoved

  datatype Progress = Progress(journal: Journal, completed: seq<Identity>, failures: seq<Identity>, aborted: bool)

  /** `apply` inside its journal update; no verdict if the resource is not recorded any more. */
  function Applied(j: Journal, id: string, identity: Identity, a: Attempt): (Journal, Option<Verdict>) {
    if id !in j.installations then (j, None)
    else
      var k := Position(j.installations[id].resources, identity);
      if k == |j.installations[id].resources| then (j, None)
      else if PreservedFor(j, Entry(id, k), a.ledger).Some? then (j, Some(Refused))
      else
        (Mark(j, id, k, if a.removed then Removed else RetryRequired), Some(if a.removed then Deleted else NotRemoved))
  }

  /** A failed update may or may not have written the journal, and ends the whole deletion. */
  function Advanced(p: Progress, id: string, identity: Identity, a: Attempt): Progress {
    if p.aborted then p
    else
      var (j, verdict) := Applied(p.journal, id, identity, a);
      if verdict.None? then p.(aborted := true)
      else
        var q := if a.written || a.saved then p.(journal := j) else p;
        if !a.saved then q.(aborted := true)
        else if verdict.value.Deleted? then q.(completed := p.completed + [identity])
        else q.(failures := p.failures + [identity])
  }

  function Progressed(j: Journal, id: string, planned: seq<Identity>, attempts: seq<Attempt>, n: nat): Progress
    requires n <= |planned| == |attempts|
  {
    if n == 0 then Progress(j, [], [], false)
    else Advanced(Progressed(j, id, planned, attempts, n - 1), id, planned[n - 1], attempts[n - 1])
  }

  lemma {:induction false} AbortedStays(j: Journal, id: string, planned: seq<Identity>, attempts: seq<Attempt>, n: nat, m: nat)
    requires n <= m <= |planned| == |attempts| && Progressed(j, id, planned, attempts, n).aborted
    ensures Progressed(j, id, planned, attempts, m) == Progressed(j, id, planned, attempts, n)
    decreases m
  {
    hide Applied;
    if n < m {
      AbortedStays(j, id, planned, attempts, n, m - 1);
    }
  }

  class Cleaner {
    var journal: Journal
    var completed: seq<Identity>
    var failures: seq<Identity>

    constructor (j: Journal)
      ensures journal == j && completed == [] && failures == []
    {
      journal, completed, failures := j, [], [];
    }

    /** The change of one journal update; `None` makes the update fail. */
    method Apply(id: string, identity: Identity, a: Attempt) returns (next: Journal, verdict: Option<Verdict>)
      ensures (next, verdict) == Applied(journal, id, identity, a)
    {
      next := journal;
      if id !in journal.installations {
        return journal, None;
      }
      var k := Position(journal.installations[id].resources, identity);
      if k == |journal.installations[id].resources| {
        return journal, None;
      }
      if PreservedFor(journal, Entry(id, k), a.ledger).Some? {
        return journal, Some(Refused);
      }
      next := Mark(journal, id, k, if a.removed then Removed else RetryRequired);
      verdict := Some(if a.removed then Deleted else NotRemoved);
    }

    method Delete(id: string, planned: seq<Identity>, attempts: seq<Attempt>) returns (ok: bool)
      requires |planned| == |attempts| && completed == [] && failures == []
      modifies this
      ensures Progress(journal, completed, failures, !ok) == Progressed(old(journal), id, planned, attempts, |planned|)
    {
      hide Applied;
      for i := 0 to |planned|
        invariant Progress(journal, completed, failures, false) == Progressed(old(journal), id, planned, attempts, i)
      {
        var next, verdict := Apply(id, planned[i], attempts[i]);
        if verdict.Some? && (attempts[i].saved || attempts[i].written) {
          journal := next;
        }
        if verdict.None? || !attempts[i].saved {
          AbortedStays(old(journal), id, planned, attempts, i + 1, |planned|);
          return false;
        }
        if verdict.value == Deleted {
          completed := completed + [planned[i]];
        } else {
          failures := failures + [planned[i]];
        }
      }
      return true;
    }
  }

  // -------------------------------------------- marking never blocks the rest

  /** Marking a live resource keeps every other live resource of the journal in place. */
  lemma MarkFrame(j: Journal, id: string, i: nat, state: Cleanup, q: Place)
    requires IsPlace(j, Entry(id, i)) && q != Entry(id, i)
    ensures IsPlace(Mark(j, id, i, state), q) <==> IsPlace(j, q)
    ensures IsPlace(j, q) ==> At(Mark(j, id, i, state), q) == At(j, q)
  {
  }

  lemma MarkKeepsReferences(j: Journal, id: string, i: nat, state: Cleanup, identity: Identity)
    requires IsPlace(j, Entry(id, i)) && Entry(id, i) !in References(j, identity)
    requires Live(At(j, Entry(id, i)))
    ensures References(Mark(j, id, i, state), identity) == References(j, identity)
  {
    var k := Mark(j, id, i, state);
    assert At(k, Entry(id, i)).identity == At(j, Entry(id, i)).identity;
    PlaceIsIn(j, Entry(id, i));
    forall p ensures p in References(k, identity) <==> p in References(j, identity) {
      PlaceIsIn(j, p);
      PlaceIsIn(k, p);
      if p != Entry(id, i) {
        MarkFrame(j, id, i, state, p);
      }
    }
  }

  lemma MarkKeepsRetained(j: Journal, id: string, i: nat, state: Cleanup, identity: Identity)
    requires IsPlace(j, Entry(id, i)) && Retained(Mark(j, id, i, state), identity)
    ensures Retained(j, identity)
  {
    var k := Mark(j, id, i, state);
    var owner :| owner in k.installations && RetainedBy(k.installations[owner], identity);
    assert k.installations[owner].retained == j.installations[owner].retained;
    assert RetainedBy(j.installations[owner], identity);
  }

  lemma MarkAddsNoConflict(j: Journal, id: string, i: nat, state: Cleanup, q: Place)
    requires IsPlace(j, Entry(id, i)) && IsPlace(j, q) && q != Entry(id, i) && Live(At(j, Entry(id, i)))
    requires IsPlace(Mark(j, id, i, state), q) && Conflicts(Mark(j, id, i, state), q)
    ensures Conflicts(j, q)
  {
    var k := Mark(j, id, i, state);
    MarkFrame(j, id, i, state, q);
    var identity := At(j, q).identity;
    var owner :| owner in k.installations && ConflictsWith(k.installations[owner], q.Entry? && q.id == owner, identity);
    var same := q.Entry? && q.id == owner;
    var n :| 0 <= n < |k.installations[owner].resources| && Conflicting(k.installations[owner].resources[n], same, identity);
    assert Conflicting(j.installations[owner].resources[n], same, identity);
    assert ConflictsWith(j.installations[owner], same, identity);
  }

  /**
   Marking a live resource Removed or RetryRequired never turns another one from
   deletable to preserved.
   */
  lemma MarkKeepsDeletable(j: Journal, id: string, i: nat, state: Cleanup, q: Place, ledger: Ledger)
    requires IsPlace(j, Entry(id, i)) && Live(At(j, Entry(id, i))) && q != Entry(id, i)
    requires MayDelete(j, q, ledger)
    ensures MayDelete(Mark(j, id, i, state), q, ledger)
  {
    hide References, Retained, Conflicts, OwnReason, ArtifactOverlaps;
    var k := Mark(j, id, i, state);
    MarkFrame(j, id, i, state, q);
    var identity := At(j, q).identity;
    DeletableIsTheOnlyReference(j, q, ledger);
    MarkKeepsReferences(j, id, i, state, identity);
    if Retained(k, identity) {
      MarkKeepsRetained(j, id, i, state, identity);
    }
    if Conflicts(k, q) {
      MarkAddsNoConflict(j, id, i, state, q);
    }
  }

  /** A resource marked RetryRequired may still be deleted: a retry plans it again. */
  lemma RetryRequiredStaysDeletable(j: Journal, id: string, i: nat, ledger: Ledger)
    requires MayDelete(j, Entry(id, i), ledger)
    ensures MayDelete(Mark(j, id, i, RetryRequired), Entry(id, i), ledger)
  {
    hide References, Retained, Conflicts, OwnReason, ArtifactOverlaps;
    var k := Mark(j, id, i, RetryRequired);
    var p := Entry(id, i);
    var identity := At(j, p).identity;
    RetrySameReferences(j, id, i, identity);
    OwnReasonIgnoresState(At(j, p), RetryRequired);
    if Retained(k, identity) {
      MarkKeepsRetained(j, id, i, RetryRequired, identity);
    }
    if Conflicts(k, p) {
      RetryAddsNoConflict(j, id, i);
    }
  }

  lemma OwnReasonIgnoresState(r: Resource, state: Cleanup)
    ensures OwnReason(r.(cleanup := state)) == OwnReason(r)
  {
  }

  lemma RetrySameReferences(j: Journal, id: string, i: nat, identity: Identity)
    requires IsPlace(j, Entry(id, i)) && Live(At(j, Entry(id, i)))
    ensures References(Mark(j, id, i, RetryRequired), identity) == References(j, identity)
  {
    var k := Mark(j, id, i, RetryRequired);
    forall p ensures p in References(k, identity) <==> p in References(j, identity) {
      PlaceIsIn(j, p);
      PlaceIsIn(k, p);
      if p != Entry(id, i) {
        MarkFrame(j, id, i, RetryRequired, p);
      }
    }
  }

  lemma RetryAddsNoConflict(j: Journal, id: string, i: nat)
    requires IsPlace(j, Entry(id, i)) && Live(At(j, Entry(id, i)))
    requires Conflicts(Mark(j, id, i, RetryRequired), Entry(id, i))
    ensures Conflicts(j, Entry(id, i))
  {
    var k := Mark(j, id, i, RetryRequired);
    var identity := At(j, Entry(id, i)).identity;
    assert At(k, Entry(id, i)).identity == identity;
    var owner :| owner in k.installations && ConflictsWith(k.installations[owner], id == owner, identity);
    var n :| 0 <= n < |k.installations[owner].resources| && Conflicting(k.installations[owner].resources[n], id == owner, identity);
    assert Conflicting(j.installations[owner].resources[n], id == owner, identity);
    assert ConflictsWith(j.installations[owner], id == owner, identity);
  }

  // -------------------------------------------- a whole plan is carried out

  /** Every resource of the installation has its own identity. */
  predicate DistinctIdentities(resources: seq<Resource>) {
    forall i, k :: 0 <= i < k < |resources| ==> resources[i].identity != resources[k].identity
  }

  /** No artifact recorded meanwhile overlaps what is planned. */
  ghost predicate Clear(attempts: seq<Attempt>, planned: seq<Identity>) {
    forall n, x :: 0 <= n < |attempts| && x in planned ==> !ArtifactOverlaps(attempts[n].ledger, x)
  }

  predicate AllSaved(attempts: seq<Attempt>) {
    forall n :: 0 <= n < |attempts| ==> attempts[n].saved
  }

  function Outcome(a: Attempt): Cleanup {
    if a.removed then Removed else RetryRequired
  }

  /** Where the plan's resource stands in its installation. */
  function PlaceOf(j: Journal, id: string, x: Identity): nat
    requires id in j.installations
  {
    Position(j.installations[id].resources, x)
  }

  /** The journal with the first `n` planned resources marked. */
  function MarkedAll(j: Journal, id: string, planned: seq<Identity>, attempts: seq<Attempt>, n: nat): Journal
    requires id in j.installations && n <= |planned| == |attempts|
  {
    if n == 0 then j
    else
      var before := MarkedAll(j, id, planned, attempts, n - 1);
      var i := PlaceOf(j, id, planned[n - 1]);
      if IsPlace(before, Entry(id, i)) then Mark(before, id, i, Outcome(attempts[n - 1])) else before
  }

  function Chosen(planned: seq<Identity>, attempts: seq<Attempt>, removed: bool, n: nat): seq<Identity>
    requires n <= |planned| == |attempts|
  {
    if n == 0 then []
    else
      Chosen(planned, attempts, removed, n - 1) + if attempts[n - 1].removed == removed then [planned[n - 1]] else []
  }

  lemma {:induction false} PositionFinds(resources: seq<Resource>, i: nat)
    requires DistinctIdentities(resources) && i < |resources|
    ensures Position(resources, resources[i].identity) == i
  {
    if i > 0 {
      assert resources[1..][i - 1] == resources[i];
      PositionFinds(resources[1..], i - 1);
    }
  }

  lemma {:induction false} SamePosition(a: seq<Resource>, b: seq<Resource>, x: Identity)
    requires |a| == |b| && forall i :: 0 <= i < |a| ==> a[i].identity == b[i].identity
    ensures Position(a, x) == Position(b, x)
  {
    if a != [] {
      SamePosition(a[1..], b[1..], x);
    }
  }

  /** Same resources, but for what the journal says of their cleanup. */
  ghost predicate SameBut(j: Journal, k: Journal, id: string) {
    && id in j.installations && id in k.installations
    && |k.installations[id].resources| == |j.installations[id].resources|
    && forall i :: 0 <= i < |j.installations[id].resources| ==>
         k.installations[id].resources[i].identity == j.installations[id].resources[i].identity
  }

  lemma {:induction false} MarkedAllSame(j: Journal, id: string, planned: seq<Identity>, attempts: seq<Attempt>, n: nat)
    requires id in j.installations && n <= |planned| == |attempts|
    ensures SameBut(j, MarkedAll(j, id, planned, attempts, n), id)
  {
    if n > 0 {
      MarkedAllSame(j, id, planned, attempts, n - 1);
    }
  }

  lemma PlannedPlace(j: Journal, id: string, ledger: Ledger, m: nat)
    requires id in j.installations && DistinctIdentities(j.installations[id].resources)
    requires m < |Deletable(j, id, true, ledger)|
    ensures MayDelete(j, Entry(id, PlaceOf(j, id, Deletable(j, id, true, ledger)[m])), ledger)
  {
    hide PreservedFor, Deletable;
    var x := Deletable(j, id, true, ledger)[m];
    PlannedMayBeDeleted(j, id, ledger, x);
    var i: nat :| DeletableAt(j, id, ledger, i, x);
    PositionFinds(j.installations[id].resources, i);
  }

  lemma DifferentPlaces(j: Journal, id: string, ledger: Ledger, n: nat, m: nat)
    requires id in j.installations && DistinctIdentities(j.installations[id].resources)
    requires n < m < |Deletable(j, id, true, ledger)|
    ensures var plan := Deletable(j, id, true, ledger);
            PlaceOf(j, id, plan[n]) != PlaceOf(j, id, plan[m])
  {
    hide PreservedFor, Deletable;
    PlannedOnce(j, id, ledger, n, m);
    PlannedPlace(j, id, ledger, n);
    PlannedPlace(j, id, ledger, m);
  }

  /** While the first `n` planned resources get marked, all later ones stay deletable. */
  lemma {:induction false} LaterStayDeletable(
    j: Journal, id: string, ledger: Ledger, planned: seq<Identity>, attempts: seq<Attempt>, n: nat, m: nat)
    requires id in j.installations && DistinctIdentities(j.installations[id].resources)
    requires planned == Deletable(j, id, true, ledger) && |attempts| == |planned| && n <= m < |planned|
    ensures MayDelete(MarkedAll(j, id, planned, attempts, n), Entry(id, PlaceOf(j, id, planned[m])), ledger)
    decreases n
  {
    hide PreservedFor, Deletable, PlaceOf, MayDelete;
    if n == 0 {
      PlannedPlace(j, id, ledger, m);
    } else {
      LaterStayDeletable(j, id, ledger, planned, attempts, n - 1, m);
      LaterStayDeletable(j, id, ledger, planned, attempts, n - 1, n - 1);
      DifferentPlaces(j, id, ledger, n - 1, m);
      var before := MarkedAll(j, id, planned, attempts, n - 1);
      var i := PlaceOf(j, id, planned[n - 1]);
      MayDeleteIsLive(before, Entry(id, i), ledger);
      MarkKeepsDeletable(before, id, i, Outcome(attempts[n - 1]), Entry(id, PlaceOf(j, id, planned[m])), ledger);
    }
  }

  lemma MayDeleteIsLive(j: Journal, p: Place, ledger: Ledger)
    requires MayDelete(j, p, ledger)
    ensures IsPlace(j, p) && Live(At(j, p)) && PreservedFor(j, p, ledger).None?
  {
  }

  lemma OtherLedger(j: Journal, p: Place, ledger: Ledger, other: Ledger)
    requires MayDelete(j, p, ledger) && !ArtifactOverlaps(other, At(j, p).identity)
    ensures PreservedFor(j, p, other).None?
  {
  }

  lemma AppliedMarks(j: Journal, k: Journal, id: string, x: Identity, ledger: Ledger, a: Attempt)
    requires SameBut(j, k, id) && MayDelete(k, Entry(id, PlaceOf(j, id, x)), ledger)
    requires PlaceOf(j, id, x) < |j.installations[id].resources| && !ArtifactOverlaps(a.ledger, x)
    ensures Applied(k, id, x, a) == (Mark(k, id, PlaceOf(j, id, x), Outcome(a)), Some(if a.removed then Deleted else NotRemoved))
  {
    hide PreservedFor, ArtifactOverlaps;
    SamePosition(j.installations[id].resources, k.installations[id].resources, x);
    var p := Entry(id, PlaceOf(j, id, x));
    MayDeleteIsLive(k, p, ledger);
    assert At(k, p).identity == x;
    OtherLedger(k, p, ledger, a.ledger);
  }

  /**
   A plan that is carried out with every journal update going through attempts
   each planned resource, in order; none is refused because of what was done to
   the ones before it. The report and the journal say exactly what happened.
   */
  lemma {:induction false} PlanIsCarriedOut(
    j: Journal, id: string, ledger: Ledger, planned: seq<Identity>, attempts: seq<Attempt>, n: nat)
    requires id in j.installations && DistinctIdentities(j.installations[id].resources)
    requires planned == Deletable(j, id, true, ledger) && |attempts| == |planned| && n <= |planned|
    requires AllSaved(attempts) && Clear(attempts, planned)
    ensures Progressed(j, id, planned, attempts, n) ==
            Progress(MarkedAll(j, id, planned, attempts, n),
                     Chosen(planned, attempts, true, n), Chosen(planned, attempts, false, n), false)
    decreases n
  {
    hide PreservedFor, Deletable, PlaceOf, MayDelete, Applied, ArtifactOverlaps, Mark;
    if n > 0 {
      PlanIsCarriedOut(j, id, ledger, planned, attempts, n - 1);
      LaterStayDeletable(j, id, ledger, planned, attempts, n - 1, n - 1);
      var before := MarkedAll(j, id, planned, attempts, n - 1);
      MarkedAllSame(j, id, planned, attempts, n - 1);
      var x, a := planned[n - 1], attempts[n - 1];
      MayDeleteIsLive(before, Entry(id, PlaceOf(j, id, x)), ledger);
      assert x in planned;
      AppliedMarks(j, before, id, x, ledger, a);
    }
  }

  lemma MarkEffect(j: Journal, id: string, k: nat, state: Cleanup, i: nat)
    requires IsPlace(j, Entry(id, k)) && i < |j.installations[id].resources|
    ensures var m := Mark(j, id, k, state);
            && id in m.installations && |m.installations[id].resources| == |j.installations[id].resources|
            && m.installations[id].resources[i] ==
               if i == k then j.installations[id].resources[i].(cleanup := state) else j.installations[id].resources[i]
  {
  }

  /** Nothing but the installation's own marks changes. */
  lemma {:induction false} MarksNothingElse(
    j: Journal, id: string, planned: seq<Identity>, attempts: seq<Attempt>, n: nat)
    requires id in j.installations && |attempts| == |planned| && n <= |planned|
    ensures var k := MarkedAll(j, id, planned, attempts, n);
            && k.installations.Keys == j.installations.Keys && k.setup == j.setup
            && (forall other :: other in j.installations && other != id ==> k.installations[other] == j.installations[other])
            && k.installations[id].retained == j.installations[id].retained
            && |k.installations[id].resources| == |j.installations[id].resources|
    decreases n
  {
    if n > 0 {
      MarksNothingElse(j, id, planned, attempts, n - 1);
    }
  }

  /** What the final journal says of a resource: the outcome of its attempt, if it was planned. */
  lemma {:induction false} MarksExactly(
    j: Journal, id: string, ledger: Ledger, planned: seq<Identity>, attempts: seq<Attempt>, n: nat, i: nat)
    requires id in j.installations && DistinctIdentities(j.installations[id].resources)
    requires planned == Deletable(j, id, true, ledger) && |attempts| == |planned| && n <= |planned|
    requires i < |j.installations[id].resources|
    ensures SameBut(j, MarkedAll(j, id, planned, attempts, n), id)
    ensures var r := j.installations[id].resources[i];
            var s := MarkedAll(j, id, planned, attempts, n).installations[id].resources[i];
            && (forall m :: 0 <= m < n && planned[m] == r.identity ==> s == r.(cleanup := Outcome(attempts[m])))
            && ((forall m :: 0 <= m < n ==> planned[m] != r.identity) ==> s == r)
    decreases n
  {
    hide PreservedFor, Deletable, MayDelete, Mark, Position, DistinctIdentities;
    MarkedAllSame(j, id, planned, attempts, n);
    if n > 0 {
      MarksExactly(j, id, ledger, planned, attempts, n - 1, i);
      var r := j.installations[id].resources[i];
      var k := PlaceOf(j, id, planned[n - 1]);
      PlannedPlace(j, id, ledger, n - 1);
      MayDeleteIsLive(j, Entry(id, k), ledger);
      PositionFinds(j.installations[id].resources, i);
      assert i == k <==> planned[n - 1] == r.identity;
      MarkEffect(MarkedAll(j, id, planned, attempts, n - 1), id, k, Outcome(attempts[n - 1]), i);
      forall m | 0 <= m < n - 1 ensures planned[m] != planned[n - 1] {
        PlannedOnce(j, id, ledger, m, n - 1);
      }
    }
  }

  // ------------------------------------------------------- a single attempt

  /** An identity that is not recorded is not touched, and the attempt fails. */
  lemma {:induction false} UnrecordedIsNotTouched(j: Journal, id: string, x: Identity, a: Attempt)
    requires id in j.installations ==> forall k :: 0 <= k < |j.installations[id].resources| ==>
               j.installations[id].resources[k].identity != x
    ensures Applied(j, id, x, a) == (j, None)
  {
    hide PreservedFor;
  }

  /**
   An attempt at a recorded resource removes it, or tries to, if and only if by the
   journal and the ledger as they are then it is removable and undisputed.
   */
  lemma AttemptIff(j: Journal, id: string, k: nat, a: Attempt)
    requires id in j.installations && DistinctIdentities(j.installations[id].resources)
    requires k < |j.installations[id].resources| && j.installations[id].resources[k].cleanup != Removed
    ensures var x := j.installations[id].resources[k].identity;
            var (next, verdict) := Applied(j, id, x, a);
            if !ToDelete(j, id, k, a.ledger, x) then (next, verdict) == (j, Some(Refused))
            else
              && verdict == Some(if a.removed then Deleted else NotRemoved)
              && id in next.installations && |next.installations[id].resources| == |j.installations[id].resources|
              && next.installations[id].resources[k] ==
                   j.installations[id].resources[k].(cleanup := if a.removed then Removed else RetryRequired)
  {
    hide PreservedFor, ToDelete;
    PositionFinds(j.installations[id].resources, k);
    MayDeleteIff(j, id, k, a.ledger, j.installations[id].resources[k].identity);
  }

  /** An attempt whose journal update fails is the last one, and is not reported as done. */
  lemma FailedUpdateEnds(j: Journal, id: string, planned: seq<Identity>, attempts: seq<Attempt>, n: nat, m: nat)
    requires n < m <= |planned| == |attempts| && !attempts[n].saved
    ensures Progressed(j, id, planned, attempts, m).aborted
    ensures Progressed(j, id, planned, attempts, m).completed == Progressed(j, id, planned, attempts, n).completed
    ensures Progressed(j, id, planned, attempts, m).failures == Progressed(j, id, planned, attempts, n).failures
    ensures !attempts[n].written ==>
              Progressed(j, id, planned, attempts, m).journal == Progressed(j, id, planned, attempts, n).journal
  {
    hide Applied;
    AbortedStays(j, id, planned, attempts, n + 1, m);
  }
}
