/**
 Removing one recorded object by way of a quarantine name (src/cleanup/remove.rs).

 The directory holds two names: the target, which others may swap at any moment,
 and the quarantine name, which only this program uses. A script says what
 happens before each file operation: nothing, a swap of the target, a change of
 the quarantined object's attributes, or a halt (the operation fails, or the
 process dies).
 */
module Quarantine {
  import opened Common

  datatype Kind = Regular | Folder | Link | Other

  /** `owned` stands for the checks on owner and mode. */
  datatype Object = Object(
    inode: nat, kind: Kind, created: Option<nat>, links: nat, owned: bool, entries: nat)

  datatype Proof = Proof(inode: nat, directory: bool, symlink: bool, created: Option<nat>)

  datatype Parent = Missing | Replaced | Recorded

  datatype Move =
    | Quiet
    | Swap(target: Option<Object>)
    | Touch(links: nat, owned: bool, entries: nat)
    | Halt

  datatype Dir = Dir(
    parent: Parent,
    target: Option<Object>,
    quarantine: Option<Object>,
    unlinked: seq<Object>,         // history: what was removed
    script: seq<Move>)

  datatype Outcome = Done | Changed | NotEmpty | Failed | Halted

  /** What identifies an object for good; the rest of its attributes may change. */
  predicate SameObject(proof: Proof, o: Object) {
    && o.inode == proof.inode && o.kind.Folder? == proof.directory && o.kind.Link? == proof.symlink
    && proof.created.Some? && o.created == proof.created
  }

  predicate Matches(proof: Proof, o: Object) {
    && SameObject(proof, o) && o.owned
    && (o.kind.Folder? || ((o.kind.Regular? || o.kind.Link?) && o.links == 1))
  }

  // ------------------------------------------------- what each operation does

  /** The world's move before the next file operation. */
  function Tick(d: Dir): Dir {
    if d.script == [] then d
    else
      var next := d.(script := d.script[1..]);
      match d.script[0]
      case Swap(target) => next.(target := target)
      case Touch(links, owned, entries) =>
        if next.quarantine.None? then next
        else next.(quarantine := Some(next.quarantine.value.(links := links, owned := owned, entries := entries)))
      case _ => next
  }

  predicate Halts(d: Dir) {
    d.script != [] && d.script[0].Halt?
  }

  /** Rename without replacement. */
  function Moved(d: Dir): (Dir, Outcome) {
    var t := Tick(d);
    if Halts(d) then (t, Halted)
    else if t.target.None? || t.quarantine.Some? then (t, Failed)
    else (t.(target := None, quarantine := t.target), Done)
  }

  function MovedBack(d: Dir): (Dir, Outcome) {
    var t := Tick(d);
    if Halts(d) then (t, Halted)
    else if t.quarantine.None? || t.target.Some? then (t, Failed)
    else (t.(target := t.quarantine, quarantine := None), Done)
  }

  function MovedBackThen(d: Dir, outcome: Outcome): (Dir, Outcome) {
    var back := MovedBack(d);
    (back.0, if back.1.Done? then outcome else back.1)
  }

  /** The moved object is checked again, and put back unless it is the recorded one and empty. */
  function CheckedMove(d: Dir, proof: Proof): (Dir, Outcome) {
    var t := Tick(d);
    if Halts(d) then (t, Halted)
    else if t.quarantine.None? then (t, Changed)
    else if !Matches(proof, t.quarantine.value) then MovedBackThen(t, Changed)
    else if !proof.directory then (t, Done)
    else
      var u := Tick(t);
      if Halts(t) then (u, Halted)
      else if u.quarantine.None? || !u.quarantine.value.kind.Folder? then (u, Failed)
      else if u.quarantine.value.entries > 0 then MovedBackThen(u, NotEmpty)
      else (u, Done)
  }

  function StagedFresh(d: Dir, proof: Proof): (Dir, Outcome) {
    var t := Tick(d);
    if Halts(d) then (t, Halted)
    else if t.target.None? || !Matches(proof, t.target.value) then (t, Changed)
    else
      var moved := Moved(t);
      if !moved.1.Done? then moved else CheckedMove(moved.0, proof)
  }

  function Staged(d: Dir, proof: Proof): (Dir, Outcome) {
    var t := Tick(d);
    if Halts(d) then (t, Halted)
    else if t.quarantine.None? then StagedFresh(t, proof)
    else if !Matches(proof, t.quarantine.value) then (t, Changed)
    else
      var u := Tick(t);
      if Halts(t) then (u, Halted) else (u, if u.target.None? then Done else Changed)
  }

  /** `remove_dir` refuses what is not an empty directory, `remove_file` refuses a directory. */
  function Unlinked(d: Dir, proof: Proof): (Dir, Outcome) {
    var t := Tick(d);
    if Halts(d) then (t, Halted)
    else if t.quarantine.None? then (t, Failed)
    else
      var o := t.quarantine.value;
      if proof.directory && (!o.kind.Folder? || o.entries > 0) then (t, Failed)
      else if !proof.directory && o.kind.Folder? then (t, Failed)
      else Synced(t.(quarantine := None, unlinked := t.unlinked + [o]))
  }

  function Synced(d: Dir): (Dir, Outcome) {
    (Tick(d), if Halts(d) then Halted else Done)
  }

  function RemovedHere(d: Dir, proof: Proof): (Dir, Outcome) {
    var t := Tick(d);
    if Halts(d) then (t, Halted)
    else
      // The quarantine name is looked at only when the target is gone.
      var u := if t.target.None? then Tick(t) else t;
      if t.target.None? && Halts(t) then (u, Halted)
      else if t.target.None? && u.quarantine.None? then (u, Done)
      else
        var staged := Staged(u, proof);
        if !staged.1.Done? then staged else Unlinked(staged.0, proof)
  }

  function Removed(d: Dir, proof: Proof): (Dir, Outcome) {
    match d.parent
    case Missing => (d, Done)
    case Replaced => (d, Changed)
    case Recorded => RemovedHere(d, proof)
  }

  // ------------------------------------------------------ the program itself

  class Remover {
    const proof: Proof
    var parent: Parent
    var target: Option<Object>
    var quarantine: Option<Object>
    var unlinked: seq<Object>
    var script: seq<Move>

    constructor (d: Dir, proof: Proof)
      ensures Abs() == d && this.proof == proof
    {
      this.proof := proof;
      parent, target, quarantine, unlinked, script := d.parent, d.target, d.quarantine, d.unlinked, d.script;
    }

    function Abs(): Dir
      reads this
    {
      Dir(parent, target, quarantine, unlinked, script)
    }

    /** The world moves; false if the coming operation does not happen. */
    method Step() returns (go: bool)
      modifies this
      ensures Abs() == Tick(old(Abs())) && go == !Halts(old(Abs()))
    {
      if script == [] {
        return true;
      }
      var move := script[0];
      script := script[1..];
      match move {
        case Quiet => return true;
        case Halt => return false;
        case Swap(other) => target := other;
        case Touch(links, owned, entries) =>
          if quarantine.Some? {
            quarantine := Some(quarantine.value.(links := links, owned := owned, entries := entries));
          }
      }
      return true;
    }

    method Rename() returns (outcome: Outcome)
      modifies this
      ensures (Abs(), outcome) == Moved(old(Abs()))
    {
      var go := Step();
      if !go {
        return Halted;
      }
      if target.None? || quarantine.Some? {
        return Failed;
      }
      target, quarantine := None, target;
      return Done;
    }

    method RenameBack() returns (outcome: Outcome)
      modifies this
      ensures (Abs(), outcome) == MovedBack(old(Abs()))
    {
      var go := Step();
      if !go {
        return Halted;
      }
      if quarantine.None? || target.Some? {
        return Failed;
      }
      target, quarantine := quarantine, None;
      return Done;
    }

    method Stage() returns (outcome: Outcome)
      modifies this
      ensures (Abs(), outcome) == Staged(old(Abs()), proof)
    {
      hide Tick, Halts, Matches;
      var go := Step();
      if !go {
        return Halted;
      }
      if quarantine.Some? {
        if !Matches(proof, quarantine.value) {
          return Changed;
        }
        go := Step();
        if !go {
          return Halted;
        }
        return if target.None? then Done else Changed;
      }
      go := Step();
      if !go {
        return Halted;
      }
      if target.None? || !Matches(proof, target.value) {
        return Changed;
      }
      outcome := Rename();
      if outcome != Done {
        return;
      }
      outcome := CheckMoved();
    }

    method CheckMoved() returns (outcome: Outcome)
      modifies this
      ensures (Abs(), outcome) == CheckedMove(old(Abs()), proof)
    {
      hide Tick, Halts, Matches;
      var go := Step();
      if !go {
        return Halted;
      }
      if quarantine.None? {
        return Changed;
      }
      if !Matches(proof, quarantine.value) {
        outcome := RenameBack();
        return if outcome == Done then Changed else outcome;
      }
      if proof.directory {
        go := Step();
        if !go {
          return Halted;
        }
        if quarantine.None? || quarantine.value.kind != Folder {
          return Failed;
        }
        if quarantine.value.entries > 0 {
          outcome := RenameBack();
          return if outcome == Done then NotEmpty else outcome;
        }
      }
      return Done;
    }

    method Unlink() returns (outcome: Outcome)
      modifies this
      ensures (Abs(), outcome) == Unlinked(old(Abs()), proof)
    {
      hide Tick, Halts;
      var go := Step();
      if !go {
        return Halted;
      }
      if quarantine.None? {
        return Failed;
      }
      var o := quarantine.value;
      if proof.directory && (o.kind != Folder || o.entries > 0) {
        return Failed;
      }
      if !proof.directory && o.kind == Folder {
        return Failed;
      }
      quarantine, unlinked := None, unlinked + [o];
      go := Step();
      return if go then Done else Halted;
    }

    method Remove() returns (outcome: Outcome)
      modifies this
      ensures (Abs(), outcome) == Removed(old(Abs()), proof)
    {
      hide Tick, Halts, Staged, Unlinked;
      if parent == Missing {
        return Done;
      }
      if parent == Replaced {
        return Changed;
      }
      var go := Step();
      if !go {
        return Halted;
      }
      if target.None? {
        go := Step();
        if !go {
          return Halted;
        }
        if quarantine.None? {
          return Done;
        }
      }
      outcome := Stage();
      if outcome != Done {
        return;
      }
      outcome := Unlink();
    }
  }
}
