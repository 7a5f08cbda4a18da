/** What removal by quarantine guarantees, whatever others do to the target name. */
module QuarantineTheorems {
  import opened Common
  import opened Quarantine

  // ---------------------------------------------------------------- safety

  /** The quarantine name holds the recorded object, perhaps with other attributes. */
  predicate Holds(d: Dir, proof: Proof) {
    d.quarantine.Some? && SameObject(proof, d.quarantine.value)
  }

  lemma TickKeeps(d: Dir, proof: Proof)
    ensures Tick(d).parent == d.parent && Tick(d).unlinked == d.unlinked
    ensures Tick(d).quarantine.Some? == d.quarantine.Some?
    ensures Holds(Tick(d), proof) == Holds(d, proof)
  {
  }

  lemma MovesKeep(d: Dir)
    ensures Moved(d).0.parent == d.parent && Moved(d).0.unlinked == d.unlinked
    ensures MovedBack(d).0.parent == d.parent && MovedBack(d).0.unlinked == d.unlinked
  {
  }

  lemma CheckedMoveHolds(d: Dir, proof: Proof)
    ensures CheckedMove(d, proof).0.parent == d.parent && CheckedMove(d, proof).0.unlinked == d.unlinked
    ensures CheckedMove(d, proof).1.Done? ==> Holds(CheckedMove(d, proof).0, proof)
  {
    hide Tick, MovedBack;
    var t := Tick(d);
    TickKeeps(d, proof);
    TickKeeps(t, proof);
    MovesKeep(t);
    MovesKeep(Tick(t));
  }

  lemma StagedHolds(d: Dir, proof: Proof)
    ensures Staged(d, proof).0.parent == d.parent && Staged(d, proof).0.unlinked == d.unlinked
    ensures Staged(d, proof).1.Done? ==> Holds(Staged(d, proof).0, proof)
  {
    hide Tick, Moved, CheckedMove;
    var t := Tick(d);
    var u := Tick(t);
    TickKeeps(d, proof);
    TickKeeps(t, proof);
    MovesKeep(u);
    CheckedMoveHolds(Moved(u).0, proof);
  }

  /** At most one object is removed, it is the recorded one, and a directory only when it is empty. */
  ghost predicate RemovedRecorded(before: Dir, after: Dir, proof: Proof) {
    || after.unlinked == before.unlinked
    || (exists o :: after.unlinked == before.unlinked + [o] && SameObject(proof, o) && (o.kind.Folder? ==> o.entries == 0))
  }

  lemma UnlinkedRecorded(d: Dir, proof: Proof)
    requires Holds(d, proof)
    ensures RemovedRecorded(d, Unlinked(d, proof).0, proof)
    ensures Unlinked(d, proof).1.Done? ==> Unlinked(d, proof).0.unlinked != d.unlinked
  {
    hide Tick;
    var t := Tick(d);
    TickKeeps(d, proof);
    if t.quarantine.Some? {
      var o := t.quarantine.value;
      TickKeeps(t.(quarantine := None, unlinked := t.unlinked + [o]), proof);
      if Unlinked(d, proof).0.unlinked != d.unlinked {
        assert Unlinked(d, proof).0.unlinked == d.unlinked + [o];
      }
    }
  }

  /** Whatever is swapped in, touched or interrupted, only the recorded object is ever removed. */
  lemma OnlyRecordedRemoved(d: Dir, proof: Proof)
    ensures RemovedRecorded(d, Removed(d, proof).0, proof)
  {
    hide Tick, Staged, Unlinked;
    var t := Tick(d);
    var u := if t.target.None? then Tick(t) else t;
    TickKeeps(d, proof);
    TickKeeps(t, proof);
    StagedHolds(u, proof);
    if Staged(u, proof).1.Done? {
      UnlinkedRecorded(Staged(u, proof).0, proof);
    }
  }

  /**
   A swapped-in object never stays behind in quarantine once the call returns
   with an answer: it went back to the target name, or the call failed on the way.
   */
  lemma QuarantineIsEmptied(d: Dir, proof: Proof)
    requires d.parent.Recorded? && d.quarantine.None?
    ensures Removed(d, proof).1 in {Done, Changed, NotEmpty} ==> Removed(d, proof).0.quarantine.None?
  {
    hide Tick, StagedFresh, Unlinked;
    var t := Tick(d);
    var u := if t.target.None? then Tick(t) else t;
    TickKeeps(d, proof);
    TickKeeps(t, proof);
    TickKeeps(u, proof);
    FreshIsEmptied(Tick(u), proof);
    UnlinkedEmpties(Staged(u, proof).0, proof);
  }

  lemma UnlinkedEmpties(d: Dir, proof: Proof)
    ensures Unlinked(d, proof).1 in {Done, Failed, Halted}
    ensures Unlinked(d, proof).1.Done? ==> Unlinked(d, proof).0.quarantine.None?
  {
  }

  lemma FreshIsEmptied(d: Dir, proof: Proof)
    requires d.quarantine.None?
    ensures StagedFresh(d, proof).1 in {Changed, NotEmpty} ==> StagedFresh(d, proof).0.quarantine.None?
  {
    hide Tick, Matches;
    var t := Tick(d);
    TickKeeps(d, proof);
    TickKeeps(Moved(t).0, proof);
  }

  // ---------------------------------------------------- crashes and reruns

  /** No interference, but halts anywhere. */
  predicate Calm(script: seq<Move>) {
    forall i :: 0 <= i < |script| ==> script[i].Quiet? || script[i].Halt?
  }

  /** The object is at its name, in quarantine, or gone for good. */
  ghost predicate OnItsWay(d: Dir, o: Object) {
    && d.parent.Recorded?
    && (d.target, d.quarantine, d.unlinked) in {(Some(o), None, []), (None, Some(o), []), (None, None, [o])}
  }

  predicate Removable(o: Object, proof: Proof) {
    Matches(proof, o) && (o.kind.Folder? ==> o.entries == 0)
  }

  lemma CalmTick(d: Dir)
    requires Calm(d.script)
    ensures Tick(d) == d.(script := Tick(d).script) && Calm(Tick(d).script)
  {
  }

  lemma CalmMoves(d: Dir, o: Object)
    requires Calm(d.script) && OnItsWay(d, o)
    ensures OnItsWay(Moved(d).0, o) && Calm(Moved(d).0.script)
    ensures OnItsWay(MovedBack(d).0, o) && Calm(MovedBack(d).0.script)
    ensures Moved(d).1.Done? ==> Moved(d).0.quarantine == Some(o)
  {
    hide Tick;
    CalmTick(d);
  }

  lemma CalmCheckedMove(d: Dir, o: Object, proof: Proof)
    requires Calm(d.script) && OnItsWay(d, o)
    ensures OnItsWay(CheckedMove(d, proof).0, o) && Calm(CheckedMove(d, proof).0.script)
  {
    hide Tick, MovedBack, Matches, Calm, OnItsWay;
    var t := Tick(d);
    CalmTickStays(d, o);
    CalmTickStays(t, o);
    CalmMoves(t, o);
    CalmMoves(Tick(t), o);
  }

  lemma CalmTickStays(d: Dir, o: Object)
    requires Calm(d.script) && OnItsWay(d, o)
    ensures OnItsWay(Tick(d), o) && Calm(Tick(d).script)
  {
    CalmTick(d);
  }

  lemma CalmStaged(d: Dir, o: Object, proof: Proof)
    requires Calm(d.script) && OnItsWay(d, o)
    ensures OnItsWay(Staged(d, proof).0, o) && Calm(Staged(d, proof).0.script)
  {
    hide Tick, Moved, CheckedMove, Matches, Calm, OnItsWay;
    var t := Tick(d);
    var u := Tick(t);
    CalmTickStays(d, o);
    CalmTickStays(t, o);
    CalmMoves(u, o);
    CalmCheckedMove(Moved(u).0, o, proof);
  }

  lemma CalmUnlinked(d: Dir, o: Object, proof: Proof)
    requires Calm(d.script) && OnItsWay(d, o)
    ensures OnItsWay(Unlinked(d, proof).0, o)
  {
    hide Tick;
    CalmTick(d);
    var t := Tick(d);
    if t.quarantine.Some? {
      CalmTick(t.(quarantine := None, unlinked := t.unlinked + [o]));
      assert [] + [o] == [o];
    }
  }

  /** An interrupted removal leaves the object at its name, in quarantine, or removed once. */
  lemma CalmRemoved(d: Dir, o: Object, proof: Proof)
    requires Calm(d.script) && OnItsWay(d, o)
    ensures OnItsWay(Removed(d, proof).0, o)
  {
    hide Tick, Staged, Unlinked, Calm;
    var t := Tick(d);
    var u := if t.target.None? then Tick(t) else t;
    CalmTickStays(d, o);
    CalmTickStays(t, o);
    CalmStaged(u, o, proof);
    CalmUnlinked(Staged(u, proof).0, o, proof);
  }

  /** A calm attempt that returns Ok has removed the object, now or earlier. */
  lemma DoneMeansGone(d: Dir, o: Object, proof: Proof)
    requires Calm(d.script) && OnItsWay(d, o) && Removed(d, proof).1.Done?
    ensures var after := Removed(d, proof).0;
            after.target.None? && after.quarantine.None? && after.unlinked == [o]
  {
    hide Tick, Staged, Unlinked, Calm;
    CalmRemoved(d, o, proof);
    var t := Tick(d);
    var u := if t.target.None? then Tick(t) else t;
    CalmTickStays(d, o);
    CalmTickStays(t, o);
    TickKeeps(d, proof);
    TickKeeps(t, proof);
    if !(t.target.None? && u.quarantine.None?) {
      StagedHolds(u, proof);
      UnlinkedRecorded(Staged(u, proof).0, proof);
    }
  }

  /** Attempts one after the other, each with its own script. */
  function Attempts(d: Dir, proof: Proof, scripts: seq<seq<Move>>): Dir
    decreases |scripts|
  {
    if scripts == [] then d
    else Removed(Attempts(d, proof, scripts[..|scripts| - 1]).(script := scripts[|scripts| - 1]), proof).0
  }

  lemma {:induction false} AttemptsKeep(d: Dir, o: Object, proof: Proof, scripts: seq<seq<Move>>)
    requires OnItsWay(d, o) && forall i :: 0 <= i < |scripts| ==> Calm(scripts[i])
    ensures OnItsWay(Attempts(d, proof, scripts), o)
    decreases |scripts|
  {
    hide Removed, Calm;
    if scripts != [] {
      var n := |scripts| - 1;
      AttemptsKeep(d, o, proof, scripts[..n]);
      CalmRemoved(Attempts(d, proof, scripts[..n]).(script := scripts[n]), o, proof);
    }
  }

  /** A file or an empty directory: one undisturbed attempt ends it, from wherever it is. */
  lemma UndisturbedRemoves(d: Dir, o: Object, proof: Proof)
    requires OnItsWay(d, o) && Removable(o, proof) && d.script == []
    ensures Removed(d, proof) == (d.(target := None, quarantine := None, unlinked := [o]), Done)
  {
    assert [] + [o] == [o];
  }

  /**
   After any number of interrupted attempts, an undisturbed one ends with the
   object gone, removed exactly once, and every further one succeeds and changes nothing.
   */
  lemma RerunsComplete(d: Dir, o: Object, proof: Proof, scripts: seq<seq<Move>>)
    requires OnItsWay(d, o) && Removable(o, proof)
    requires forall i :: 0 <= i < |scripts| ==> Calm(scripts[i])
    ensures var gone := d.(target := None, quarantine := None, unlinked := [o], script := []);
            && Removed(Attempts(d, proof, scripts).(script := []), proof) == (gone, Done)
            && Removed(gone, proof) == (gone, Done)
  {
    hide Removed;
    AttemptsKeep(d, o, proof, scripts);
    var e := Attempts(d, proof, scripts).(script := []);
    UndisturbedRemoves(e, o, proof);
    UndisturbedRemoves(Removed(e, proof).0, o, proof);
    assert d.parent == e.parent;
  }

  // ------------------------------------------------- directories not empty

  /** One of the first `n` operations halts. */
  predicate HaltsWithin(script: seq<Move>, n: nat)
    decreases n
  {
    n > 0 && script != [] && (script[0].Halt? || HaltsWithin(script[1..], n - 1))
  }

  predicate Full(o: Object, proof: Proof) {
    Matches(proof, o) && o.kind.Folder? && o.entries > 0
  }

  /**
   A directory that is not empty is never removed. It is back at its name
   afterwards, unless the attempt halts between its two renames; then it is
   stranded in quarantine.
   */
  lemma FullDirectoryComesBack(d: Dir, o: Object, proof: Proof)
    requires d.parent.Recorded? && d.target == Some(o) && d.quarantine.None? && Full(o, proof) && Calm(d.script)
    ensures var after := Removed(d, proof).0;
            && after.unlinked == d.unlinked
            && if HaltsWithin(d.script, 7) && !HaltsWithin(d.script, 4)
               then after.target.None? && after.quarantine == Some(o)
               else after.target == Some(o) && after.quarantine.None?
  {
    CalmTick(d);
    CalmTick(Tick(d));
    FreshComesBack(Tick(Tick(d)), o, proof);
  }

  lemma FreshComesBack(d: Dir, o: Object, proof: Proof)
    requires d.target == Some(o) && d.quarantine.None? && Full(o, proof) && Calm(d.script)
    ensures var after := StagedFresh(d, proof);
            && after.0.unlinked == d.unlinked && !after.1.Done?
            && if HaltsWithin(d.script, 5) && !HaltsWithin(d.script, 2)
               then after.0.target.None? && after.0.quarantine == Some(o)
               else after.0.target == Some(o) && after.0.quarantine.None?
  {
    CalmTick(d);
    CalmTick(Tick(d));
    if Moved(Tick(d)).1.Done? {
      CheckedComesBack(Moved(Tick(d)).0, o, proof);
    }
  }

  lemma CheckedComesBack(d: Dir, o: Object, proof: Proof)
    requires d.target.None? && d.quarantine == Some(o) && Full(o, proof) && Calm(d.script)
    ensures var after := CheckedMove(d, proof);
            && after.0.unlinked == d.unlinked && !after.1.Done?
            && if HaltsWithin(d.script, 3)
               then after.0.target.None? && after.0.quarantine == Some(o)
               else after.0.target == Some(o) && after.0.quarantine.None?
  {
    CalmTick(d);
    CalmTick(Tick(d));
    CalmTick(Tick(Tick(d)));
  }

  /** Once stranded, no undisturbed attempt brings it back or removes it: each one fails and changes nothing. */
  lemma StrandedStays(d: Dir, o: Object, proof: Proof)
    requires d.parent.Recorded? && d.target.None? && d.quarantine == Some(o) && Full(o, proof) && d.script == []
    ensures Removed(d, proof) == (d, Failed)
  {
  }

  // ------------------------------------------------------ what each answer means

  /** The object recorded, with nothing about it that makes it unsafe to remove. */
  predicate AsRecorded(o: Object, proof: Proof) {
    && o.inode == proof.inode && proof.created.Some? && o.created == proof.created
    && (proof.directory <==> o.kind == Folder) && (proof.symlink <==> o.kind == Link)
    && o.kind != Other && o.owned && (o.kind == Folder || o.links == 1)
  }

  lemma MatchesIff(o: Object, proof: Proof)
    ensures Matches(proof, o) <==> AsRecorded(o, proof)
  {
  }

  predicate IsFull(o: Object) {
    o.kind == Folder && o.entries > 0
  }

  /** Whatever others do meanwhile, without its recorded parent nothing is touched: gone with it, or an error. */
  lemma OtherParents(d: Dir, proof: Proof)
    ensures d.parent == Missing ==> Removed(d, proof) == (d, Done)
    ensures d.parent == Replaced ==> Removed(d, proof) == (d, Changed)
  {
  }

  /** The object that an undisturbed attempt is about: the quarantined one, else the target. */
  function Candidate(d: Dir): Option<Object> {
    if d.quarantine.Some? then d.quarantine else d.target
  }

  /**
   What an undisturbed attempt answers, for anything that it may find under the two
   names, and what each answer says of the directory afterwards.
   */
  lemma UndisturbedAnswer(d: Dir, proof: Proof)
    requires d.parent == Recorded && d.script == []
    ensures var (after, answer) := Removed(d, proof);
            && (Candidate(d) == None <==> answer == Done && after == d)
            && (answer == Changed <==>
                  Candidate(d).Some? && (!AsRecorded(Candidate(d).value, proof) || (d.quarantine.Some? && d.target.Some?)))
            && (answer == NotEmpty <==>
                  d.quarantine == None && d.target.Some? && AsRecorded(d.target.value, proof) && IsFull(d.target.value))
            && (answer == Failed <==>
                  d.target == None && d.quarantine.Some? && AsRecorded(d.quarantine.value, proof) && IsFull(d.quarantine.value))
            && answer != Halted
            && (answer != Done ==> after == d)
            && (answer == Done && Candidate(d).Some? ==>
                  && after == d.(target := None, quarantine := None, unlinked := d.unlinked + [Candidate(d).value])
                  && AsRecorded(Candidate(d).value, proof) && !IsFull(Candidate(d).value))
  {
    if Candidate(d).Some? {
      MatchesIff(Candidate(d).value, proof);
    }
  }
}
