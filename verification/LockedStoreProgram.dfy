/**
 The locked store's operations as the program runs them, statement by statement
 (src/storage/transaction.rs). Every file operation is recorded as an event of
 the store machine, so that whatever is proved about all runs of the machine
 holds of this program among any other actors.
 */
module LockedStoreProgram {
  import opened Common
  import opened LockedStore
  import opened LockedStoreTheorems

  /** What happens before a step: nothing, an outside edit, or the step fails or the process dies. */
  datatype Move = Quiet | Edits(contents: Contents) | Halt

  lemma RunExtends(states: seq<State>, events: seq<Event>, e: Event)
    requires Run(states, events) && Enabled(Last(states), e)
    ensures Run(states + [Apply(Last(states), e)], events + [e])
  {
    hide Enabled, Apply, Init;
    var more, all := states + [Apply(Last(states), e)], events + [e];
    forall i {:trigger all[i]} | 0 <= i < |all| ensures Enabled(more[i], all[i]) && more[i + 1] == Apply(more[i], all[i]) {
      assert i < |events| ==> all[i] == events[i];
    }
  }

  class Writer {
    const me: Actor
    var nodes: map<File, Node>
    var names: seq<Option<File>>
    var pending: Option<File>
    var next: File
    var script: seq<Move>
    ghost var states: seq<State>
    ghost var events: seq<Event>

    /** A process that finds the directory as some run of the machine left it. */
    constructor (me: Actor, cells: State, next: File, script: seq<Move>, ghost states: seq<State>, ghost events: seq<Event>)
      requires Run(states, events) && cells == Last(states) && cells.names != [] && forall f :: f in cells.nodes ==> f < next
      ensures Valid() && this.me == me && this.states == states && this.events == events
    {
      this.me, this.next, this.script := me, next, script;
      nodes, names, pending := cells.nodes, cells.names, cells.pending;
      this.states, this.events := states, events;
    }

    ghost function Now(): State
      reads this
      requires states != []
    {
      Last(states)
    }

    /** The directory is that of a reachable state of the machine, and `next` names no file yet. */
    ghost predicate Valid()
      reads this
    {
      && states != [] && Run(states, events) && names != []
      && Now().nodes == nodes && Now().names == names && Now().pending == pending
      && forall f :: f in nodes ==> f < next
    }

    ghost predicate Holds(pc: Pc)
      reads this
      requires states != []
    {
      Now().lock == Some(me) && me in Now().actors && Now().actors[me] == pc
    }

    ghost predicate Away()
      reads this
      requires states != []
    {
      me !in Now().actors && Now().lock != Some(me)
    }

    /** The step just taken is an event of the machine. */
    ghost method Took(e: Event)
      requires states != [] && Run(states, events) && Enabled(Now(), e)
      modifies this`states, this`events
      ensures states == old(states) + [Apply(old(Now()), e)] && events == old(events) + [e]
      ensures Run(states, events) && Now() == Apply(old(Now()), e) && |states| == |events| + 1
    {
      RunExtends(states, events, e);
      states, events := states + [Apply(Now(), e)], events + [e];
    }

    ghost method Gone()
      requires Valid() && me in Now().actors && Now().lock == Some(me)
      modifies this`states, this`events
      ensures Valid() && Away() && old(events) <= events
    {
      hide Run;
      Took(Fail(me));
    }

    /** What an outside editor may change: the entry and the history, but not the temporary file. */
    ghost predicate OnlyEdited(s: State, t: State) {
      && t == s.(names := t.names, nodes := t.nodes, log := t.log) && t.names != [] && s.log <= t.log
      && (forall f :: f in s.nodes ==> f in t.nodes && t.nodes[f] == s.nodes[f])
      && Durable(t) == Durable(s)
    }

    /** The world moves; false if the coming step does not happen. */
    method Step() returns (go: bool)
      requires Valid()
      modifies this
      ensures Valid() && old(events) <= events && old(states) <= states && OnlyEdited(old(Now()), Now())
      ensures old(script) == [] ==>
                go && script == [] && nodes == old(nodes) && names == old(names) && pending == old(pending)
    {
      hide Run;
      if script == [] {
        return true;
      }
      var move := script[0];
      script := script[1..];
      match move {
        case Quiet =>
        case Halt => return false;
        case Edits(contents) =>
          if contents.Some? {
            var f := next;
            next := next + 1;
            nodes := nodes[f := Node(contents.value, true)];
            names := names + [Some(f)];
            Took(Edit(Some(f), contents.value));
          } else {
            names := names + [None];
            Took(Edit(None, []));
          }
      }
      return true;
    }

    /** What a read of the name finds. */
    function Found(): Contents
      reads this
      requires names != []
    {
      var file := Last(names);
      if file.Some? && file.value in nodes then Some(nodes[file.value].content) else None
    }

    method Lock(job: Job)
      requires Valid() && Away() && Now().lock.None?
      modifies this`states, this`events
      ensures Valid() && Holds(Reading(job)) && old(events) <= events
    {
      hide Run;
      Took(Acquire(me, job));
    }

    /** Discard an interrupted write, create the temporary file, and write it out. */
    method Prepare(ghost t: Ticket, bytes: bytes) returns (file: Option<File>)
      requires Valid() && Holds(Discarding(t)) && t.bytes == bytes
      modifies this
      ensures Valid() && old(events) <= events
      ensures if file.Some? then Holds(Checking(t, file.value)) else Away()
      ensures old(script) == [] ==>
                && file.Some? && script == [] && pending == file && file.value in nodes && nodes[file.value].content == bytes
                && Found() == old(Found())
    {
      hide Run;
      var go := DiscardOld(t);
      if !go {
        return None;
      }
      file := CreateTemporary(t);
      if file.None? {
        return;
      }
      go := WriteAll(t, bytes, file.value);
      if go {
        go := SyncTemporary(t, file.value);
      }
      if !go {
        file := None;
      }
    }

    method DiscardOld(ghost t: Ticket) returns (go: bool)
      requires Valid() && Holds(Discarding(t))
      modifies this
      ensures Valid() && old(events) <= events
      ensures if go then Holds(Creating(t)) else Away()
      ensures old(script) == [] ==>
                go && script == [] && nodes == old(nodes) && names == old(names) && pending == None
    {
      hide Run;
      go := Step();
      if !go {
        Gone();
        return;
      }
      pending := None;
      Took(Discard(me));
    }

    /** The temporary file is created anew; one that is there again is an error. */
    method CreateTemporary(ghost t: Ticket) returns (file: Option<File>)
      requires Valid() && Holds(Creating(t))
      modifies this
      ensures Valid() && old(events) <= events
      ensures if file.Some? then Holds(Filling(t, file.value)) && file.value in nodes else Away()
      ensures old(script) == [] && old(pending) == None ==>
                && file.Some? && script == [] && names == old(names) && pending == file && Last(names) != file
                && Found() == old(Found())
    {
      hide Run;
      var go := Step();
      if !go {
        Gone();
        return None;
      }
      EntryIsThere();
      var f := next;
      next := next + 1;
      var there := pending.Some?;
      if !there {
        nodes, pending := nodes[f := Node([], false)], Some(f);
      }
      Took(Create(me, f));
      return if there then None else Some(f);
    }

    lemma EntryIsThere()
      requires Valid()
      ensures Last(names).Some? ==> Last(names).value in nodes
    {
      RunInv(states, events, |states| - 1);
      LiveIsLast(Now());
      assert Now().names[|Now().names| - 1] == Last(Now().log).file;
      assert FileOk(Now().nodes, Now().log[|Now().log| - 1]);
    }

    /** `write_all`: the bytes go out in pieces, and any piece may be the last. */
    method WriteAll(ghost t: Ticket, bytes: bytes, f: File) returns (go: bool)
      requires Valid() && Holds(Filling(t, f)) && f in nodes && t.bytes == bytes
      modifies this
      ensures Valid() && old(events) <= events
      ensures if go then Holds(Filling(t, f)) && f in nodes && nodes[f].content == t.bytes else Away()
      ensures old(script) == [] ==>
                go && script == [] && names == old(names) && pending == old(pending)
      ensures old(script) == [] && Last(old(names)) != Some(f) ==> Found() == old(Found())
    {
      var size := 0;
      go := WritePiece(t, bytes, f, 0);
      while go && size < |bytes|
        invariant Valid() && old(events) <= events && size <= |bytes|
        invariant if go then Holds(Filling(t, f)) && f in nodes && nodes[f].content == bytes[..size] else Away()
        invariant old(script) == [] ==> go && script == [] && names == old(names) && pending == old(pending)
        invariant old(script) == [] && Last(old(names)) != Some(f) ==> Found() == old(Found())
        decreases |bytes| - size, go
      {
        go := WritePiece(t, bytes, f, size + 1);
        if go {
          size := size + 1;
        }
      }
    }

    method WritePiece(ghost t: Ticket, bytes: bytes, f: File, size: nat) returns (go: bool)
      requires Valid() && Holds(Filling(t, f)) && f in nodes && t.bytes == bytes && size <= |bytes|
      modifies this
      ensures Valid() && old(events) <= events
      ensures if go then Holds(Filling(t, f)) && f in nodes && nodes[f].content == bytes[..size] else Away()
      ensures old(script) == [] ==>
                go && script == [] && names == old(names) && pending == old(pending)
      ensures old(script) == [] && Last(old(names)) != Some(f) ==> Found() == old(Found())
    {
      hide Run;
      go := Step();
      if !go {
        Gone();
        return;
      }
      nodes := nodes[f := Node(bytes[..size], false)];
      Took(Fill(me, size));
    }

    method SyncTemporary(ghost t: Ticket, f: File) returns (go: bool)
      requires Valid() && Holds(Filling(t, f)) && f in nodes && nodes[f].content == t.bytes
      modifies this
      ensures Valid() && old(events) <= events
      ensures if go then Holds(Checking(t, f)) else Away()
      ensures old(script) == [] ==>
                && go && script == [] && names == old(names) && pending == old(pending)
                && f in nodes && nodes[f].content == t.bytes
      ensures old(script) == [] && Last(old(names)) != Some(f) ==> Found() == old(Found())
    {
      hide Run;
      go := Step();
      if !go {
        Gone();
        return;
      }
      nodes := nodes[f := nodes[f].(synced := true)];
      Took(SyncFile(me));
    }

    /** From the synced temporary file to the synced directory; a guarded commit checks once more. */
    method Replace(ghost t: Ticket, guard: Option<Contents>, f: File) returns (go: bool, ghost done: Ticket, ghost index: nat)
      requires Valid() && Holds(Checking(t, f)) && Guards(t, guard)
      modifies this
      ensures Valid() && old(events) <= events
      ensures if go then Holds(Recording(done, index)) && done.job == t.job && done.bytes == t.bytes else Away()
      ensures old(script) == [] && old(pending) == Some(f) && f in old(nodes) ==>
                && (go <==> guard.None? || old(Found()) == guard.value) && script == []
                && Found() == if go then Some(old(nodes)[f].content) else old(Found())
    {
      hide Run;
      done, index := t, 0;
      go, done := LastCheck(t, guard, f);
      if go {
        go, index := RenameTemporary(done, f);
      }
      if go {
        go := SyncEntry(done, index);
      }
    }

    /** An update has no last check; a held store is compared with what was found when it was locked. */
    ghost predicate Guards(t: Ticket, guard: Option<Contents>) {
      guard == if t.job.Update? then None else Some(t.previous)
    }

    method LastCheck(ghost t: Ticket, guard: Option<Contents>, f: File) returns (go: bool, ghost checked: Ticket)
      requires Valid() && Holds(Checking(t, f)) && Guards(t, guard)
      modifies this
      ensures Valid() && old(events) <= events && checked.job == t.job && checked.bytes == t.bytes
      ensures if go then Holds(Renaming(checked, f)) else Away()
      ensures old(script) == [] ==>
                && (go <==> guard.None? || old(Found()) == guard.value)
                && script == [] && nodes == old(nodes) && names == old(names) && pending == old(pending)
    {
      hide Run;
      checked := t;
      go := Step();
      if !go {
        Gone();
        return;
      }
      go := guard.None? || Found() == guard.value;
      checked := if t.job.Update? then t else t.(based := |Now().log|);
      Took(Check(me));
    }

    method RenameTemporary(ghost t: Ticket, f: File) returns (go: bool, ghost index: nat)
      requires Valid() && Holds(Renaming(t, f))
      modifies this
      ensures Valid() && old(events) <= events
      ensures if go then Holds(Syncing(t, index)) else Away()
      ensures old(script) == [] && old(pending) == Some(f) ==>
                go && script == [] && nodes == old(nodes) && names == old(names) + [Some(f)]
    {
      hide Run;
      index := 0;
      go := Step();
      if !go {
        Gone();
        return;
      }
      index := |Now().log|;
      go := pending.Some?;
      if go {
        names, pending := names + [pending], None;
      }
      Took(Rename(me));
    }

    method SyncEntry(ghost t: Ticket, ghost index: nat) returns (go: bool)
      requires Valid() && Holds(Syncing(t, index))
      modifies this
      ensures Valid() && old(events) <= events
      ensures if go then Holds(Recording(t, index)) else Away()
      ensures old(script) == [] ==>
                go && script == [] && nodes == old(nodes) && names != [] && Last(names) == Last(old(names))
    {
      hide Run;
      go := Step();
      if !go {
        Gone();
        return;
      }
      names := [Last(names)];
      Took(SyncDirectory(me));
    }

    /** The commit stands for good: no power loss can undo it. */
    ghost predicate Stands(t: Ticket, index: nat)
      reads this
      requires states != []
    {
      index < |Now().log| && index < Durable(Now()) && Now().log[index].origin == Written(t)
    }

    /** The artifact ledger is written, which may fail although the commit stands; then the call returns Ok. */
    method Return(ghost t: Ticket, ghost index: nat) returns (ok: bool)
      requires Valid() && Holds(Recording(t, index))
      modifies this
      ensures Valid() && Away() && old(events) <= events && Stands(t, index)
      ensures old(script) == [] ==> ok && Found() == old(Found())
    {
      ok := Step();
      RunInv(states, events, |states| - 1);
      assert PcOk(Now(), Now().actors[me]);
      if ok {
        Took(Finish(me));
      } else {
        Took(Fail(me));
      }
    }

    /** The whole writing part, from the discarded leftovers to the return. */
    method WriteAndReturn(ghost t: Ticket, bytes: bytes, guard: Option<Contents>)
      returns (ok: bool, ghost commit: Option<(Ticket, nat)>)
      requires Valid() && Holds(Discarding(t)) && t.bytes == bytes && Guards(t, guard)
      modifies this
      ensures Valid() && Away() && old(events) <= events && (ok ==> commit.Some?)
      ensures commit.Some? ==>
                Stands(commit.value.0, commit.value.1) && commit.value.0.job == t.job && commit.value.0.bytes == bytes
      ensures old(script) == [] ==>
                && (ok <==> guard.None? || old(Found()) == guard.value)
                && Found() == if ok then Some(bytes) else old(Found())
    {
      hide Run, Stands;
      commit := None;
      var file := Prepare(t, bytes);
      if file.None? {
        return false, None;
      }
      ghost var done: Ticket, index: nat;
      ok, done, index := Replace(t, guard, file.value);
      if ok {
        ok := Return(done, index);
        commit := Some((done, index));
      }
    }

    /** Nothing, or at most four mebibytes. */
    predicate IsShort(contents: Contents) {
      contents.Some? ==> |contents.value| <= 0x40_0000
    }

    /**
     `update_with_deadline`. If it returns Ok, its result is a commit that stands, or
     the change made no difference to the last commit, read under the lock at `found`.
     */
    method Update(change: Contents -> Contents)
      returns (ok: bool, ghost commit: Option<(Ticket, nat)>, ghost found: nat)
      requires Valid() && Away() && Now().lock.None?
      modifies this
      ensures Valid() && Away() && old(events) <= events
      ensures commit.Some? ==> Stands(commit.value.0, commit.value.1) && commit.value.0.job == Job.Update(change)
      ensures ok && commit.None? ==> LeftAlone(change, found) && |old(events)| <= found
      ensures old(script) == [] ==>
                (ok <==> IsShort(old(Found())) && change(old(Found())).Some? && IsShort(change(old(Found()))))
      ensures old(script) == [] ==> Found() == if ok then change(old(Found())) else old(Found())
    {
      hide Run, Stands;
      commit, found := None, 0;
      ok := LockForUpdate(change);
      if !ok {
        return;
      }
      ghost var based := |Now().log|;
      var previous := ReadLocked(change);
      var changed := change(previous);
      if TooLong(previous) || changed.None? || TooLong(changed) {
        return false, None, 0;
      }
      if changed == previous {
        found := |events| - 1;
        ok := ReturnUnchanged(previous, change, found);
        return;
      }
      ok, commit := WriteAndReturn(Ticket(Job.Update(change), previous, changed.value, based), changed.value, None);
    }

    method LockForUpdate(change: Contents -> Contents) returns (go: bool)
      requires Valid() && Away() && Now().lock.None?
      modifies this
      ensures Valid() && old(events) <= events
      ensures if go then Holds(Reading(Job.Update(change))) else Away()
      ensures old(script) == [] ==> go && script == [] && Found() == old(Found())
    {
      hide Run;
      Lock(Job.Update(change));
      go := Step();
      if !go {
        Gone();
      }
    }

    /** The previous contents, which are those of the last commit. */
    method ReadLocked(ghost change: Contents -> Contents) returns (previous: Contents)
      requires Valid() && Holds(Reading(Job.Update(change)))
      modifies this`states, this`events
      ensures Valid() && events == old(events) + [Read(me)]
      ensures if TooLong(previous) || change(previous).None? || TooLong(change(previous)) then Away()
              else if change(previous) == previous then
                Holds(Unchanged(previous, |Now().log|)) && LeftAlone(change, |old(events)|)
              else
                Holds(Discarding(Ticket(Job.Update(change), previous, change(previous).value, |old(Now()).log|)))
      ensures previous == Found() && Found() == old(Found()) && script == old(script)
    {
      hide Run, Inv;
      previous := Found();
      ghost var at := Now();
      FoundIsLast();
      Took(Read(me));
      assert states[|old(events)|] == at;
    }

    lemma FoundIsLast()
      requires Valid()
      ensures Now().log != [] && Found() == Last(Now().log).contents
    {
      RunInv(states, events, |states| - 1);
      LiveIsLast(Now());
    }

    /** At `found` the call holds the lock and reads; the change leaves the last commit as it is. */
    ghost predicate LeftAlone(change: Contents -> Contents, found: nat)
      reads this
      requires states != []
    {
      && found < |events| && found < |states| && events[found] == Read(me) && states[found].lock == Some(me)
      && states[found].log != [] && states[found].log <= Now().log
      && change(Last(states[found].log).contents) == Last(states[found].log).contents
    }

    /** The call has just read; the world may move once more before it returns. */
    method ReturnUnchanged(ghost previous: Contents, ghost change: Contents -> Contents, ghost found: nat)
      returns (ok: bool)
      requires Valid() && Holds(Unchanged(previous, |Now().log|)) && LeftAlone(change, found)
      modifies this
      ensures Valid() && Away() && old(events) <= events
      ensures ok ==> LeftAlone(change, found)
      ensures old(script) == [] ==> ok && Found() == old(Found())
    {
      hide Run;
      ghost var at := states[found];
      ok := Step();
      assert events[found] == Read(me) && states[found] == at;
      if ok {
        Took(Finish(me));
      } else {
        Gone();
      }
    }

    /** `lock`: what the file holds now is kept for the commit. */
    method LockStore() returns (held: Option<Contents>, ghost based: nat)
      requires Valid() && Away() && Now().lock.None?
      modifies this
      ensures Valid() && old(events) <= events
      ensures if held.Some? then Holds(Held(held.value, based)) else Away()
      ensures old(script) == [] ==>
                held == (if IsShort(old(Found())) then Some(old(Found())) else None) && Found() == old(Found()) && script == []
    {
      hide Run;
      Lock(Hold);
      var go := Step();
      based := |Now().log|;
      if !go {
        Gone();
        return None, based;
      }
      var previous := Found();
      held := if TooLong(previous) then None else Some(previous);
      Took(Read(me));
    }

    /** `commit_created`, with its two checks. */
    method CommitCreated(previous: Contents, ghost based: nat, bytes: bytes)
      returns (ok: bool, ghost commit: Option<(Ticket, nat)>)
      requires Valid() && Holds(Held(previous, based))
      modifies this
      ensures Valid() && Away() && old(events) <= events && (ok ==> commit.Some?)
      ensures commit.Some? ==> Stands(commit.value.0, commit.value.1) && commit.value.0.bytes == bytes
      ensures old(script) == [] ==>
                && (ok <==> IsShort(Some(bytes)) && old(Found()) == previous)
                && Found() == if ok then Some(bytes) else old(Found())
    {
      hide Run, Stands;
      commit := None;
      ok := Step();
      if !ok {
        Gone();
        return;
      }
      ghost var t := Ticket(Hold, previous, bytes, |Now().log|);
      ok := !TooLong(Some(bytes)) && Found() == previous;
      Took(Put(me, bytes));
      if ok {
        ok, commit := WriteAndReturn(t, bytes, Some(previous));
      }
    }
  }
}
