/** What a cleanup plan never touches, and in which order it works. */
module CleanupTheorems {
  import opened Common
  import opened CleanupPlan

  predicate MayDelete(j: Journal, p: Place, ledger: Ledger) {
    IsPlace(j, p) && Live(At(j, p)) && PreservedFor(j, p, ledger).None?
  }

  lemma OverlapsSymmetric(a: Identity, b: Identity)
    ensures Overlaps(a, b) == Overlaps(b, a)
  {
  }

  lemma PlaceIsIn(j: Journal, p: Place)
    ensures p in Places(j) <==> IsPlace(j, p)
  {
  }

  // ------------------------------------------------------- what is kept apart

  lemma NoConflict(j: Journal, p: Place, id: string, i: nat, ledger: Ledger)
    requires MayDelete(j, p, ledger) && id in j.installations && i < |j.installations[id].resources|
    ensures !Conflicting(j.installations[id].resources[i], p.Entry? && p.id == id, At(j, p).identity)
  {
    if Conflicting(j.installations[id].resources[i], p.Entry? && p.id == id, At(j, p).identity) {
      assert ConflictsWith(j.installations[id], p.Entry? && p.id == id, At(j, p).identity);
      assert Conflicts(j, p);
    }
  }

  predicate SameOwner(p: Place, q: Place) {
    if p.Entry? then q.Entry? && q.id == p.id else q.Setup?
  }

  /** Resources of different owners that may both be deleted never overlap. */
  lemma DeletableOfDifferentOwnersDisjoint(j: Journal, p: Place, q: Place, ledger: Ledger)
    requires MayDelete(j, p, ledger) && MayDelete(j, q, ledger) && !SameOwner(p, q)
    ensures !Overlaps(At(j, p).identity, At(j, q).identity)
  {
    OverlapsSymmetric(At(j, p).identity, At(j, q).identity);
    if q.Entry? {
      NoConflict(j, p, q.id, q.index, ledger);
    } else {
      NoConflict(j, q, p.id, p.index, ledger);
    }
  }

  /**
   What may be deleted overlaps no live application artifact, no retained data of
   any installation and no live resource of an installation that is not exclusively its own.
   */
  lemma DeletableTouchesNothingElse(j: Journal, p: Place, ledger: Ledger)
    requires MayDelete(j, p, ledger)
    ensures forall path :: path in ledger && Live(ledger[path]) ==> !Overlaps(At(j, p).identity, ledger[path].identity)
    ensures forall id, i :: id in j.installations && 0 <= i < |j.installations[id].retained| ==>
                              !Overlaps(At(j, p).identity, j.installations[id].retained[i])
    ensures forall id, i :: id in j.installations && 0 <= i < |j.installations[id].resources| &&
                            Live(j.installations[id].resources[i]) && j.installations[id].resources[i].ownership != Exclusive ==>
                              !Overlaps(At(j, p).identity, j.installations[id].resources[i].identity)
  {
    forall id, i | id in j.installations && 0 <= i < |j.installations[id].retained|
      ensures !Overlaps(At(j, p).identity, j.installations[id].retained[i])
    {
      assert !RetainedBy(j.installations[id], At(j, p).identity);
    }
    forall id, i: nat |
      id in j.installations && i < |j.installations[id].resources| &&
      Live(j.installations[id].resources[i]) && j.installations[id].resources[i].ownership != Exclusive
      ensures !Overlaps(At(j, p).identity, j.installations[id].resources[i].identity)
    {
      NoConflict(j, p, id, i, ledger);
    }
  }

  /** It lies strictly inside its recorded root, outside every `.ripmcp` directory, and has a birth identity. */
  lemma DeletableIsContained(j: Journal, p: Place, ledger: Ledger)
    requires MayDelete(j, p, ledger)
    ensures var r := At(j, p);
            && r.ownership == Exclusive && r.identity.PathOf? && r.filesystem.Some?
            && r.filesystem.value.root < r.identity.path && r.filesystem.value.created.Some?
            && ".ripmcp" !in r.identity.path && !IsCoordinationMetadata(r.identity)
  {
  }

  lemma SingletonOf<T>(s: set<T>, x: T)
    requires |s| == 1 && x in s
    ensures s == {x}
  {
    assert |s - {x}| == 0;
    assert s - {x} == {};
  }

  /** A resource that may be deleted is the only live one of its identity. */
  lemma DeletableIsTheOnlyReference(j: Journal, p: Place, ledger: Ledger)
    requires MayDelete(j, p, ledger)
    ensures References(j, At(j, p).identity) == {p}
  {
    PlaceIsIn(j, p);
    SingletonOf(References(j, At(j, p).identity), p);
  }

  // ------------------------------------------------------------- the order

  predicate Descending(s: seq<Identity>) {
    forall i, k :: 0 <= i < k < |s| ==> Depth(s[i]) >= Depth(s[k])
  }

  lemma {:induction false} InsertAdds(x: Identity, s: seq<Identity>)
    ensures multiset(Insert(x, s)) == multiset{x} + multiset(s)
  {
    if s != [] && !(Depth(s[0]) <= Depth(x)) {
      InsertAdds(x, s[1..]);
      assert s == [s[0]] + s[1..];
    }
  }

  lemma {:induction false} InsertKeepsOrder(x: Identity, s: seq<Identity>)
    requires Descending(s)
    ensures Descending(Insert(x, s))
  {
    hide Depth;
    if s != [] && !(Depth(s[0]) <= Depth(x)) {
      InsertKeepsOrder(x, s[1..]);
      InsertAdds(x, s[1..]);
      var tail := Insert(x, s[1..]);
      forall y | y in tail ensures Depth(s[0]) >= Depth(y) {
        assert y in multiset(tail);
        assert y == x || y in s[1..];
      }
      assert forall k :: 0 <= k < |tail| ==> tail[k] in tail;
    }
  }

  /** The sort puts deeper paths first and keeps every resource. */
  lemma {:induction false} DeepestFirstSorts(s: seq<Identity>)
    ensures Descending(DeepestFirst(s))
    ensures multiset(DeepestFirst(s)) == multiset(s)
  {
    if s != [] {
      DeepestFirstSorts(s[1..]);
      InsertKeepsOrder(s[0], DeepestFirst(s[1..]));
      InsertAdds(s[0], DeepestFirst(s[1..]));
      assert s == [s[0]] + s[1..];
    }
  }

  function OfDepth(s: seq<Identity>, n: nat): seq<Identity> {
    if s == [] then [] else (if Depth(s[0]) == n then [s[0]] else []) + OfDepth(s[1..], n)
  }

  lemma OfDepthAfter(x: Identity, s: seq<Identity>, n: nat)
    ensures OfDepth([x] + s, n) == (if Depth(x) == n then [x] else []) + OfDepth(s, n)
  {
    assert ([x] + s)[1..] == s;
  }

  lemma {:induction false} InsertIsStable(x: Identity, s: seq<Identity>, n: nat)
    requires Descending(s)
    ensures OfDepth(Insert(x, s), n) == (if Depth(x) == n then [x] else []) + OfDepth(s, n)
  {
    hide OfDepth, Depth;
    if s == [] || Depth(s[0]) <= Depth(x) {
      OfDepthAfter(x, s, n);
    } else {
      InsertIsStable(x, s[1..], n);
      OfDepthAfter(s[0], Insert(x, s[1..]), n);
      OfDepthAfter(s[0], s[1..], n);
      assert s == [s[0]] + s[1..];
      assert Depth(x) == n ==> Depth(s[0]) != n;
    }
  }

  /** Resources of one depth keep their journal order. */
  lemma {:induction false} DeepestFirstIsStable(s: seq<Identity>, n: nat)
    ensures OfDepth(DeepestFirst(s), n) == OfDepth(s, n)
  {
    if s != [] {
      DeepestFirstIsStable(s[1..], n);
      DeepestFirstSorts(s[1..]);
      InsertIsStable(s[0], DeepestFirst(s[1..]), n);
    }
  }

  // ------------------------------------------------------ the plan as a whole

  lemma OneCandidate(j: Journal, id: string, ledger: Ledger, n: nat)
    requires id in j.installations && 0 < n <= |j.installations[id].resources|
    ensures Candidates(j, id, true, ledger, n) ==
            Candidates(j, id, true, ledger, n - 1)
            + if MayDelete(j, Entry(id, n - 1), ledger) then [At(j, Entry(id, n - 1)).identity] else []
  {
    hide PreservedFor;
  }

  /** `x` is a resource of the installation that may be deleted, at index `i`. */
  predicate DeletableAt(j: Journal, id: string, ledger: Ledger, i: nat, x: Identity) {
    MayDelete(j, Entry(id, i), ledger) && At(j, Entry(id, i)).identity == x
  }

  /** One of the first `n` resources, identified by `x`, may be deleted. */
  ghost predicate DeletableBelow(j: Journal, id: string, ledger: Ledger, n: nat, x: Identity) {
    exists i: nat :: i < n && DeletableAt(j, id, ledger, i, x)
  }

  lemma OneMoreBelow(j: Journal, id: string, ledger: Ledger, n: nat, x: Identity)
    ensures DeletableBelow(j, id, ledger, n + 1, x) <==>
            DeletableBelow(j, id, ledger, n, x) || DeletableAt(j, id, ledger, n, x)
  {
    hide DeletableAt;
    if DeletableBelow(j, id, ledger, n, x) {
      var i: nat :| i < n && DeletableAt(j, id, ledger, i, x);
      assert i < n + 1 && DeletableAt(j, id, ledger, i, x);
    }
    assert n < n + 1;
  }

  lemma CandidateStep(j: Journal, id: string, ledger: Ledger, n: nat, x: Identity)
    requires id in j.installations && n < |j.installations[id].resources|
    ensures x in Candidates(j, id, true, ledger, n + 1) <==>
            x in Candidates(j, id, true, ledger, n) || DeletableAt(j, id, ledger, n, x)
  {
    hide Candidates, PreservedFor;
    OneCandidate(j, id, ledger, n + 1);
    var before := Candidates(j, id, true, ledger, n);
    var last := At(j, Entry(id, n)).identity;
    assert x in before + [last] <==> x in before || x == last;
    assert before + [] == before;
  }

  lemma NothingBelow(j: Journal, id: string, ledger: Ledger, x: Identity)
    requires id in j.installations
    ensures Candidates(j, id, true, ledger, 0) == [] && !DeletableBelow(j, id, ledger, 0, x)
  {
  }

  lemma {:induction false} CandidatesMayBeDeleted(j: Journal, id: string, ledger: Ledger, n: nat, x: Identity)
    requires id in j.installations && n <= |j.installations[id].resources|
    ensures x in Candidates(j, id, true, ledger, n) <==> DeletableBelow(j, id, ledger, n, x)
  {
    hide DeletableAt, DeletableBelow, Candidates;
    if n == 0 {
      NothingBelow(j, id, ledger, x);
    } else {
      CandidatesMayBeDeleted(j, id, ledger, n - 1, x);
      CandidateStep(j, id, ledger, n - 1, x);
      OneMoreBelow(j, id, ledger, n - 1, x);
    }
  }

  /** A clean plan deletes exactly the resources of its installation that may be deleted. */
  lemma PlannedMayBeDeleted(j: Journal, id: string, ledger: Ledger, x: Identity)
    requires id in j.installations
    ensures x in Deletable(j, id, true, ledger) <==>
            exists i: nat :: DeletableAt(j, id, ledger, i, x)
  {
    hide PreservedFor;
    var n := |j.installations[id].resources|;
    CandidatesMayBeDeleted(j, id, ledger, n, x);
    DeepestFirstSorts(Candidates(j, id, true, ledger, n));
    assert x in Deletable(j, id, true, ledger) <==> x in multiset(Deletable(j, id, true, ledger));
  }

  /** The place a planned identity comes from. */
  lemma PlannedPlace(j: Journal, id: string, ledger: Ledger, x: Identity) returns (p: Place)
    requires id in j.installations && x in Deletable(j, id, true, ledger)
    ensures p.Entry? && p.id == id && MayDelete(j, p, ledger) && At(j, p).identity == x
  {
    hide PreservedFor;
    PlannedMayBeDeleted(j, id, ledger, x);
    var i: nat :| DeletableAt(j, id, ledger, i, x);
    p := Entry(id, i);
  }

  /** The plans of two installations, made from one journal, delete nothing of each other. */
  lemma PlansAreDisjoint(j: Journal, one: string, two: string, ledger: Ledger, x: Identity, y: Identity)
    requires one in j.installations && two in j.installations && one != two
    requires x in Deletable(j, one, true, ledger) && y in Deletable(j, two, true, ledger)
    ensures !Overlaps(x, y)
  {
    hide Overlaps;
    var p := PlannedPlace(j, one, ledger, x);
    var q := PlannedPlace(j, two, ledger, y);
    DeletableOfDifferentOwnersDisjoint(j, p, q, ledger);
  }

  /**
   Whatever a plan deletes is a path with a recorded birth below its root, and every
   live resource of any installation that it overlaps is an exclusive one of the same
   installation; it overlaps no live artifact and nothing that is retained.
   */
  lemma PlanTouchesOnlyItsOwn(j: Journal, id: string, ledger: Ledger, x: Identity)
    requires id in j.installations && x in Deletable(j, id, true, ledger)
    ensures x.PathOf? && ".ripmcp" !in x.path && !IsCoordinationMetadata(x)
    ensures forall other, i ::
              other in j.installations && 0 <= i < |j.installations[other].resources| &&
              Live(j.installations[other].resources[i]) && Overlaps(x, j.installations[other].resources[i].identity) ==>
                other == id && j.installations[other].resources[i].ownership == Exclusive
    ensures forall path :: path in ledger && Live(ledger[path]) ==> !Overlaps(x, ledger[path].identity)
    ensures forall other, i :: other in j.installations && 0 <= i < |j.installations[other].retained| ==>
              !Overlaps(x, j.installations[other].retained[i])
  {
    hide Overlaps, PreservedFor, IsCoordinationMetadata;
    var p := PlannedPlace(j, id, ledger, x);
    DeletableIsContained(j, p, ledger);
    DeletableTouchesNothingElse(j, p, ledger);
    forall other, i: nat |
      other in j.installations && i < |j.installations[other].resources| &&
      Live(j.installations[other].resources[i]) && Overlaps(x, j.installations[other].resources[i].identity)
      ensures other == id && j.installations[other].resources[i].ownership == Exclusive
    {
      NoConflict(j, p, other, i, ledger);
    }
  }

  /** Nothing else in the journal, the links included, is a live resource of a planned identity. */
  lemma PlannedIsTheOnlyReference(j: Journal, id: string, ledger: Ledger, x: Identity, p: Place, q: Place)
    requires id in j.installations && x in Deletable(j, id, true, ledger)
    requires IsPlace(j, p) && Live(At(j, p)) && At(j, p).identity == x
    requires IsPlace(j, q) && Live(At(j, q)) && At(j, q).identity == x
    ensures p == q && p.Entry? && p.id == id
  {
    var planned := PlannedPlace(j, id, ledger, x);
    DeletableIsTheOnlyReference(j, planned, ledger);
    PlaceIsIn(j, p);
    PlaceIsIn(j, q);
    assert p in References(j, x) && q in References(j, x);
  }

  ghost predicate Once(s: seq<Identity>) {
    forall x :: multiset(s)[x] <= 1
  }

  lemma OncePlus(s: seq<Identity>, x: Identity)
    requires Once(s) && x !in s
    ensures Once(s + [x])
  {
    assert multiset(s + [x]) == multiset(s) + multiset{x};
    assert multiset(s)[x] == 0;
  }

  lemma NewCandidate(j: Journal, id: string, ledger: Ledger, n: nat)
    requires id in j.installations && n < |j.installations[id].resources| && MayDelete(j, Entry(id, n), ledger)
    ensures At(j, Entry(id, n)).identity !in Candidates(j, id, true, ledger, n)
  {
    hide PreservedFor, Candidates;
    var x := At(j, Entry(id, n)).identity;
    CandidatesMayBeDeleted(j, id, ledger, n, x);
    if x in Candidates(j, id, true, ledger, n) {
      var i: nat :| i < n && DeletableAt(j, id, ledger, i, x);
      DeletableIsTheOnlyReference(j, Entry(id, i), ledger);
      DeletableIsTheOnlyReference(j, Entry(id, n), ledger);
    }
  }

  lemma {:induction false} CandidatesDistinct(j: Journal, id: string, ledger: Ledger, n: nat)
    requires id in j.installations && n <= |j.installations[id].resources|
    ensures Once(Candidates(j, id, true, ledger, n))
  {
    hide PreservedFor, Once;
    if n == 0 {
      NothingOnce();
    } else {
      CandidatesDistinct(j, id, ledger, n - 1);
      OneCandidate(j, id, ledger, n);
      hide Candidates;
      var before := Candidates(j, id, true, ledger, n - 1);
      assert before + [] == before;
      if MayDelete(j, Entry(id, n - 1), ledger) {
        NewCandidate(j, id, ledger, n - 1);
        OncePlus(before, j.installations[id].resources[n - 1].identity);
      }
    }
  }

  lemma NothingOnce()
    ensures Once([])
  {
  }

  /** No resource is planned twice. */
  lemma PlannedOnce(j: Journal, id: string, ledger: Ledger, i: nat, k: nat)
    requires id in j.installations && i < k < |Deletable(j, id, true, ledger)|
    ensures Deletable(j, id, true, ledger)[i] != Deletable(j, id, true, ledger)[k]
  {
    var n := |j.installations[id].resources|;
    CandidatesDistinct(j, id, ledger, n);
    DeepestFirstSorts(Candidates(j, id, true, ledger, n));
    DistinctFromMultiset(Deletable(j, id, true, ledger), i, k);
  }

  lemma DistinctFromMultiset(s: seq<Identity>, i: nat, k: nat)
    requires i < k < |s| && multiset(s)[s[i]] <= 1
    ensures s[i] != s[k]
  {
    assert s == s[..i] + [s[i]] + s[i + 1..k] + [s[k]] + s[k + 1..];
    assert multiset(s) == multiset(s[..i]) + multiset{s[i]} + multiset(s[i + 1..k]) + multiset{s[k]} + multiset(s[k + 1..]);
  }

  /** What lies inside another planned directory is deleted before it. */
  lemma DescendantsFirst(j: Journal, id: string, ledger: Ledger, i: nat, k: nat)
    requires id in j.installations && i < |Deletable(j, id, true, ledger)| && k < |Deletable(j, id, true, ledger)|
    requires var plan := Deletable(j, id, true, ledger);
             plan[i].PathOf? && plan[k].PathOf? && plan[k].path < plan[i].path
    ensures i < k
  {
    DeepestFirstSorts(Candidates(j, id, true, ledger, |j.installations[id].resources|));
  }

  // -------------------------------- the plan, told of the resources themselves

  /** The other one is at, above or below this path. */
  predicate Meets(path: Path, other: Identity) {
    other.PathOf? && (other.path <= path || path <= other.path)
  }

  /** What may be said of the resource by itself, once it is to be deleted. */
  predicate Removable(r: Resource) {
    && r.cleanup != Removed && r.ownership == Exclusive && r.identity.PathOf?
    && r.kind in {InstallationDirectory, Log, Cache, Data, Symlink}
    && ".ripmcp" !in r.identity.path
    && (r.identity.path == [] || Last(r.identity.path) !in {"ownership.json", "artifacts.json", "self-removal.json"})
    && r.filesystem.Some? && r.filesystem.value.created.Some?
    && (r.kind == Symlink ==> r.filesystem.value.symlink)
    && r.filesystem.value.root <= r.identity.path && r.filesystem.value.root != r.identity.path
  }

  /** It is still there, meets the path, and is not just another exclusive resource of the same installation. */
  predicate InTheWay(r: Resource, own: bool, path: Path) {
    r.cleanup != Removed && !(own && r.ownership == Exclusive) && Meets(path, r.identity)
  }

  predicate StillAt(r: Resource, path: Path) {
    r.cleanup != Removed && r.identity == PathOf(path)
  }

  predicate NothingInTheWay(j: Journal, id: string, path: Path) {
    forall other, k :: other in j.installations && 0 <= k < |j.installations[other].resources| ==>
      !InTheWay(j.installations[other].resources[k], other == id, path)
  }

  /** Nothing else that is still there has to do with the path of resource `i` of `id`. */
  predicate Undisputed(j: Journal, id: string, i: nat, path: Path, ledger: Ledger)
    requires id in j.installations
  {
    && (forall file :: file in ledger ==> !(ledger[file].cleanup != Removed && Meets(path, ledger[file].identity)))
    && (forall other, k :: other in j.installations && 0 <= k < |j.installations[other].retained| ==>
          !Meets(path, j.installations[other].retained[k]))
    && NothingInTheWay(j, id, path)
    && OnlyOne(j, id, i, path)
  }

  /** No other resource of the installation, and no link, is recorded for the same path. */
  predicate OnlyOne(j: Journal, id: string, i: nat, path: Path)
    requires id in j.installations
  {
    && (forall k :: 0 <= k < |j.installations[id].resources| && k != i ==>
          !StillAt(j.installations[id].resources[k], path))
    && (forall k :: 0 <= k < |j.setup| ==> !StillAt(j.setup[k], path))
  }

  /** Resource `i` of the installation is one to delete, and known by `x`. */
  predicate ToDelete(j: Journal, id: string, i: nat, ledger: Ledger, x: Identity)
    requires id in j.installations
  {
    && i < |j.installations[id].resources| && j.installations[id].resources[i].identity == x
    && Removable(j.installations[id].resources[i])
    && Undisputed(j, id, i, j.installations[id].resources[i].identity.path, ledger)
  }

  lemma OwnReasonIff(r: Resource)
    ensures Removable(r) <==> Live(r) && !IsCoordinationMetadata(r.identity) && OwnReason(r).None?
  {
  }

  lemma Overlapping(path: Path)
    ensures forall x :: Overlaps(PathOf(path), x) <==> Meets(path, x)
  {
  }

  lemma ArtifactIff(ledger: Ledger, path: Path)
    ensures ArtifactOverlaps(ledger, PathOf(path)) <==>
            exists file :: file in ledger && ledger[file].cleanup != Removed && Meets(path, ledger[file].identity)
  {
    hide Overlaps, Meets;
    Overlapping(path);
  }

  lemma RetainedIff(j: Journal, path: Path)
    ensures !Retained(j, PathOf(path)) <==>
            forall other, k :: other in j.installations && 0 <= k < |j.installations[other].retained| ==>
              !Meets(path, j.installations[other].retained[k])
  {
    hide Overlaps, Meets;
    Overlapping(path);
    if !Retained(j, PathOf(path)) {
      forall other, k | other in j.installations && 0 <= k < |j.installations[other].retained|
        ensures !Meets(path, j.installations[other].retained[k])
      {
        assert !RetainedBy(j.installations[other], PathOf(path));
      }
    }
  }

  lemma InTheWayIff(r: Resource, own: bool, path: Path)
    ensures InTheWay(r, own, path) <==> Conflicting(r, own, PathOf(path))
  {
    Overlapping(path);
  }

  lemma ConflictsIff(j: Journal, id: string, i: nat, path: Path)
    requires id in j.installations && i < |j.installations[id].resources|
    requires j.installations[id].resources[i].identity == PathOf(path)
    ensures !Conflicts(j, Entry(id, i)) <==> NothingInTheWay(j, id, path)
  {
    hide Conflicting, InTheWay;
    forall r: Resource, own: bool ensures InTheWay(r, own, path) <==> Conflicting(r, own, PathOf(path)) {
      InTheWayIff(r, own, path);
    }
    if !Conflicts(j, Entry(id, i)) {
      forall other, k | other in j.installations && 0 <= k < |j.installations[other].resources|
        ensures !InTheWay(j.installations[other].resources[k], other == id, path)
      {
        assert !ConflictsWith(j.installations[other], other == id, PathOf(path));
      }
    }
  }

  /** Every place that refers to the path is this one. */
  predicate SolePlace(j: Journal, id: string, i: nat, path: Path) {
    forall q :: q in References(j, PathOf(path)) ==> q == Entry(id, i)
  }

  lemma OneReference(j: Journal, id: string, i: nat, path: Path)
    requires id in j.installations && i < |j.installations[id].resources|
    requires StillAt(j.installations[id].resources[i], path)
    ensures |References(j, PathOf(path))| == 1 <==> SolePlace(j, id, i, path)
  {
    var p, all := Entry(id, i), References(j, PathOf(path));
    PlaceIsIn(j, p);
    assert p in all;
    if |all| == 1 {
      SingletonOf(all, p);
    }
    if SolePlace(j, id, i, path) {
      assert all == {p};
    }
  }

  lemma Refers(j: Journal, p: Place, path: Path)
    requires IsPlace(j, p)
    ensures p in References(j, PathOf(path)) <==> StillAt(At(j, p), path)
  {
    PlaceIsIn(j, p);
  }

  lemma SolePlaceIff(j: Journal, id: string, i: nat, path: Path)
    requires id in j.installations && i < |j.installations[id].resources| && NothingInTheWay(j, id, path)
    ensures SolePlace(j, id, i, path) <==> OnlyOne(j, id, i, path)
  {
    if SolePlace(j, id, i, path) {
      forall k | 0 <= k < |j.installations[id].resources| && k != i
        ensures !StillAt(j.installations[id].resources[k], path)
      {
        Refers(j, Entry(id, k), path);
      }
      forall k | 0 <= k < |j.setup| ensures !StillAt(j.setup[k], path) {
        Refers(j, Setup(k), path);
      }
    }
  }

  /** The preservation test lets a resource go exactly when it is removable and undisputed. */
  lemma MayDeleteIff(j: Journal, id: string, i: nat, ledger: Ledger, x: Identity)
    requires id in j.installations
    ensures DeletableAt(j, id, ledger, i, x) <==> ToDelete(j, id, i, ledger, x)
  {
    hide OwnReason, Removable, IsCoordinationMetadata, ArtifactOverlaps, Retained, Conflicts, References, Meets;
    hide NothingInTheWay, OnlyOne, SolePlace;
    if i < |j.installations[id].resources| {
      var r := j.installations[id].resources[i];
      OwnReasonIff(r);
      if Removable(r) {
        var path := PathOfRemovable(r);
        ArtifactIff(ledger, path);
        RetainedIff(j, path);
        ConflictsIff(j, id, i, path);
        OneReference(j, id, i, path);
        if NothingInTheWay(j, id, path) {
          SolePlaceIff(j, id, i, path);
        }
      }
    }
  }

  lemma PathOfRemovable(r: Resource) returns (path: Path)
    requires Removable(r)
    ensures r.identity == PathOf(path) && r.cleanup != Removed
  {
    path := r.identity.path;
  }

  /** A clean plan deletes exactly the removable, undisputed resources of its installation. */
  lemma PlannedExactly(j: Journal, id: string, ledger: Ledger, x: Identity)
    requires id in j.installations
    ensures x in Deletable(j, id, true, ledger) <==> exists i: nat :: ToDelete(j, id, i, ledger, x)
  {
    hide DeletableAt, ToDelete;
    PlannedMayBeDeleted(j, id, ledger, x);
    forall i: nat ensures DeletableAt(j, id, ledger, i, x) <==> ToDelete(j, id, i, ledger, x) {
      MayDeleteIff(j, id, i, ledger, x);
    }
  }

  // ------------------------------------------------------ what is preserved

  /** The resources of the list that are still there, in order. */
  function Remaining(resources: seq<Resource>): seq<Resource> {
    if resources == [] then []
    else
      var last := resources[|resources| - 1];
      Remaining(resources[..|resources| - 1]) + if last.cleanup != Removed then [last] else []
  }

  lemma {:induction false} OrdinaryStays(j: Journal, id: string, ledger: Ledger, n: nat)
    requires id in j.installations && n <= |j.installations[id].resources|
    ensures Candidates(j, id, false, ledger, n) == []
    ensures var remaining := Remaining(j.installations[id].resources[..n]);
            && |Stays(j, id, false, ledger, n)| == |remaining|
            && forall k :: 0 <= k < |remaining| ==>
                 Stays(j, id, false, ledger, n)[k] == Preservation(remaining[k].identity, OrdinaryUninstall)
  {
    if n > 0 {
      OrdinaryStays(j, id, ledger, n - 1);
      var resources := j.installations[id].resources;
      assert resources[..n][..n - 1] == resources[..n - 1] && resources[..n][n - 1] == resources[n - 1];
    }
  }

  /** An ordinary uninstall deletes nothing, and preserves every resource that is still there, in order. */
  lemma OrdinaryUninstallDeletesNothing(j: Journal, id: string, ledger: Ledger)
    requires id in j.installations
    ensures Deletable(j, id, false, ledger) == []
    ensures var resources := j.installations[id].resources;
            var preserved := Stays(j, id, false, ledger, |resources|);
            && |preserved| == |Remaining(resources)|
            && forall k :: 0 <= k < |preserved| ==>
                 preserved[k] == Preservation(Remaining(resources)[k].identity, OrdinaryUninstall)
  {
    var resources := j.installations[id].resources;
    OrdinaryStays(j, id, ledger, |resources|);
    assert resources[..|resources|] == resources;
  }

  function Identities(resources: seq<Resource>): seq<Identity> {
    seq(|resources|, i requires 0 <= i < |resources| => resources[i].identity)
  }

  function Kept(preserved: seq<Preservation>): seq<Identity> {
    seq(|preserved|, i requires 0 <= i < |preserved| => preserved[i].resource)
  }

  /** One more resource goes to one of the two lists. */
  lemma OneMoreResource(candidates: seq<Identity>, stays: seq<Preservation>, before: seq<Resource>, r: Resource, p: Preservation)
    requires multiset(candidates) + multiset(Kept(stays)) == multiset(Identities(before)) && p.resource == r.identity
    ensures multiset(candidates + [r.identity]) + multiset(Kept(stays)) == multiset(Identities(before + [r]))
    ensures multiset(candidates) + multiset(Kept(stays + [p])) == multiset(Identities(before + [r]))
  {
    assert Kept(stays + [p]) == Kept(stays) + [p.resource];
    assert Identities(before + [r]) == Identities(before) + [r.identity];
  }

  lemma ListsGrow(j: Journal, id: string, clean: bool, ledger: Ledger, n: nat)
    requires id in j.installations && n < |j.installations[id].resources|
    ensures var r, why := j.installations[id].resources[n], Why(j, Entry(id, n), clean, ledger);
            && Candidates(j, id, clean, ledger, n + 1) ==
                 (if Live(r) && why.None? then Candidates(j, id, clean, ledger, n) + [r.identity]
                  else Candidates(j, id, clean, ledger, n))
            && Stays(j, id, clean, ledger, n + 1) ==
                 (if Live(r) && why.Some? then Stays(j, id, clean, ledger, n) + [Preservation(r.identity, why.value)]
                  else Stays(j, id, clean, ledger, n))
            && Remaining(j.installations[id].resources[..n + 1]) ==
                 (if Live(r) then Remaining(j.installations[id].resources[..n]) + [r]
                  else Remaining(j.installations[id].resources[..n]))
  {
    hide Why;
    var resources := j.installations[id].resources;
    assert resources[..n + 1][..n] == resources[..n] && resources[..n + 1][n] == resources[n];
  }

  /** What is planned and what is preserved of the first `n` resources is what remains of them. */
  ghost predicate Parted(j: Journal, id: string, clean: bool, ledger: Ledger, n: nat)
    requires id in j.installations && n <= |j.installations[id].resources|
  {
    multiset(Candidates(j, id, clean, ledger, n)) + multiset(Kept(Stays(j, id, clean, ledger, n))) ==
    multiset(Identities(Remaining(j.installations[id].resources[..n])))
  }

  lemma PartedStep(j: Journal, id: string, clean: bool, ledger: Ledger, n: nat)
    requires id in j.installations && n < |j.installations[id].resources| && Parted(j, id, clean, ledger, n)
    ensures Parted(j, id, clean, ledger, n + 1)
  {
    hide Why, Kept, Identities, Candidates, Stays, Remaining;
    ListsGrow(j, id, clean, ledger, n);
    var r, why := j.installations[id].resources[n], Why(j, Entry(id, n), clean, ledger);
    OneMoreResource(
      Candidates(j, id, clean, ledger, n), Stays(j, id, clean, ledger, n),
      Remaining(j.installations[id].resources[..n]), r, Preservation(r.identity, if why.Some? then why.value else NoProof));
  }

  lemma PartedStart(j: Journal, id: string, clean: bool, ledger: Ledger)
    requires id in j.installations
    ensures Parted(j, id, clean, ledger, 0)
  {
    hide Why;
    var none: seq<Resource>, kept: seq<Preservation> := [], [];
    assert Kept(kept) == [] && Identities(none) == [];
    assert Candidates(j, id, clean, ledger, 0) == [] && Stays(j, id, clean, ledger, 0) == kept;
    assert j.installations[id].resources[..0] == none && Remaining(none) == none;
  }

  lemma {:induction false} CandidatesAndStays(j: Journal, id: string, clean: bool, ledger: Ledger, n: nat)
    requires id in j.installations && n <= |j.installations[id].resources|
    ensures Parted(j, id, clean, ledger, n)
  {
    hide Parted;
    if n == 0 {
      PartedStart(j, id, clean, ledger);
    } else {
      CandidatesAndStays(j, id, clean, ledger, n - 1);
      PartedStep(j, id, clean, ledger, n - 1);
    }
  }

  /** Every resource that is still there is either deleted or preserved, once each. */
  lemma PlanIsComplete(j: Journal, id: string, clean: bool, ledger: Ledger)
    requires id in j.installations
    ensures var resources := j.installations[id].resources;
            multiset(Deletable(j, id, clean, ledger)) + multiset(Kept(Stays(j, id, clean, ledger, |resources|))) ==
            multiset(Identities(Remaining(resources)))
  {
    var resources := j.installations[id].resources;
    CandidatesAndStays(j, id, clean, ledger, |resources|);
    DeepestFirstSorts(Candidates(j, id, clean, ledger, |resources|));
    assert resources[..|resources|] == resources;
  }

  /** What each reason claims. */
  predicate Claims(reason: Reason, j: Journal, id: string, i: nat, ledger: Ledger)
    requires id in j.installations && i < |j.installations[id].resources|
  {
    var r := j.installations[id].resources[i];
    var path := if r.identity.PathOf? then r.identity.path else [];
    match reason
    case CoordinationMetadata =>
      r.identity.PathOf? && path != [] && Last(path) in {"ownership.json", "artifacts.json", "self-removal.json"}
    case ApplicationArtifact =>
      exists file :: file in ledger && ledger[file].cleanup != Removed &&
        (Meets(path, ledger[file].identity) || r.identity == ledger[file].identity)
    case NotExclusive => r.ownership != Exclusive
    case OtherKind => r.kind !in {InstallationDirectory, Log, Cache, Data, Symlink}
    case RuntimeResource => r.identity.Runtime?
    case ProjectDirectory => ".ripmcp" in path
    case NoProof => r.filesystem.None?
    case NoBirth => r.filesystem.Some? && r.filesystem.value.created.None?
    case NotALink => r.kind == Symlink && r.filesystem.Some? && !r.filesystem.value.symlink
    case OutsideRoot =>
      r.filesystem.Some? && (path == r.filesystem.value.root || !(r.filesystem.value.root <= path))
    case Referenced => r.identity.PathOf? && !Undisputed(j, id, i, path, ledger)
    case OrdinaryUninstall => false
  }

  lemma ArtifactClaim(j: Journal, id: string, i: nat, ledger: Ledger)
    requires id in j.installations && i < |j.installations[id].resources|
    requires ArtifactOverlaps(ledger, j.installations[id].resources[i].identity)
    ensures Claims(ApplicationArtifact, j, id, i, ledger)
  {
    var r := j.installations[id].resources[i];
    var file :| file in ledger && Live(ledger[file]) && Overlaps(r.identity, ledger[file].identity);
    if r.identity.PathOf? {
      Overlapping(r.identity.path);
    }
  }

  /** In a clean plan every reason given for preserving a resource is true of it. */
  lemma ReasonsAreTrue(j: Journal, id: string, i: nat, ledger: Ledger)
    requires id in j.installations && i < |j.installations[id].resources| && Live(j.installations[id].resources[i])
    requires PreservedFor(j, Entry(id, i), ledger).Some?
    ensures Claims(PreservedFor(j, Entry(id, i), ledger).value, j, id, i, ledger)
  {
    hide References, Retained, Conflicts, Undisputed, ArtifactOverlaps;
    var r := j.installations[id].resources[i];
    var reason := PreservedFor(j, Entry(id, i), ledger).value;
    if reason == Referenced {
      OwnReasonIff(r);
      MayDeleteIff(j, id, i, ledger, r.identity);
    } else if reason == ApplicationArtifact {
      ArtifactClaim(j, id, i, ledger);
    }
  }
}
