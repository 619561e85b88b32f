/**
  A pinned directory of small durable records, changed only by creating, renaming,
  exchanging and unlinking names under the directory lock.

  The process may stop between any two steps, leaving the directory as it stands, and
  any step may report an error with or without having taken effect. In a `reliable` call
  neither happens.
 */
module MetadataDirectory {
  import opened Strings
  import opened Wrappers
  import opened TemporaryNames

  type Bytes = seq<int>
  datatype File = File(inode: nat, bytes: Bytes)
  type Entries = map<string, File>

  datatype Outcome = Done | Failed | Crashed

  const MAX_TEMPORARY_NAME_ATTEMPTS: nat := 32
  const MAX_IGNORED_RESIDUE_ENTRIES: nat := 1024

  function Lookup(entries: Entries, name: string): Option<File>
  {
    if name in entries then Some(entries[name]) else None
  }

  /** Nothing changed but the name itself and names that parse back to the operation. */
  ghost predicate Confined(before: Entries, after: Entries, name: string, operation: string)
  {
    forall n | n != name && TemporaryOperation(n) != Some(operation) :: Lookup(after, n) == Lookup(before, n)
  }

  lemma ConfinedStart(a: Entries, name: string, operation: string)
    ensures Confined(a, a, name, operation)
  {
  }

  /** Binding or unbinding a temporary of the operation, or the name, is confined to them. */
  lemma ConfinedStep(a: Entries, b: Entries, name: string, operation: string, temporary: string)
    requires TemporaryOperation(temporary) == Some(operation)
    requires a - {name, temporary} == b - {name, temporary}
    ensures Confined(a, b, name, operation)
  {
    hide TemporaryOperation;
    forall n | n != name && n != temporary
      ensures Lookup(b, n) == Lookup(a, n)
    {
      assert Lookup(a - {name, temporary}, n) == Lookup(a, n);
      assert Lookup(b - {name, temporary}, n) == Lookup(b, n);
    }
  }

  /** There is a file under the name of this process with this number. */
  ghost predicate Taken(entries: Entries, process: nat, operation: string, number: nat)
  {
    exists epoch :: TemporaryName(operation, process, epoch, number) in entries
  }

  // -------------------------------------------------------------------- logical records

  function MetadataOperation(name: string): string { "metadata-" + name }
  function MetadataRemoval(name: string): string { "remove-metadata-" + name }
  function JournalRemoval(id: string): string { "remove-" + JournalName(id) }

  predicate IsSafeName(name: string)
  {
    name != "" && name != "." && name != ".." && '/' !in name && '\\' !in name
  }

  predicate IsResidue(name: string)
  {
    IsOperationTemporary(name) || IsOwnerProbe(name)
  }

  /** Residue is exactly what has the newer or the older form of a temporary, or is a probe. */
  lemma ResidueExactly(name: string)
    ensures IsResidue(name) <==>
      || IsOwnerProbe(name)
      || exists operation :: TemporaryOperation(name) == Some(operation) || LegacyTemporaryOperation(name) == Some(operation)
  {
    hide TemporaryOperation, LegacyTemporaryOperation, IsOwnerProbe;
    if TemporaryOperation(name).Some? {
      assert TemporaryOperation(name) == Some(TemporaryOperation(name).value);
    }
    if LegacyTemporaryOperation(name).Some? {
      assert LegacyTemporaryOperation(name) == Some(LegacyTemporaryOperation(name).value);
    }
  }

  /** The records a metadata directory holds, whatever residue lies beside them. */
  function Records(entries: Entries): map<string, Bytes>
  {
    map n | n in entries && !IsResidue(n) :: entries[n].bytes
  }

  /** What a confined change leaves of the records depends on the one name only. */
  lemma ConfinedRecords(before: Entries, after: Entries, name: string, operation: string)
    requires Confined(before, after, name, operation) && !IsResidue(name)
    ensures Records(after) ==
            match Lookup(after, name)
            case None => Records(before) - {name}
            case Some(file) => Records(before)[name := file.bytes]
  {
    hide TemporaryOperation, LegacyTemporaryOperation, IsOwnerProbe;
    forall n | n != name && !IsResidue(n)
      ensures n in after <==> n in before
      ensures n in after ==> after[n] == before[n]
    {
      assert Lookup(after, n) == Lookup(before, n);
    }
  }

  /** What `list` takes a name in a journal directory for. */
  datatype Kind = Lease | Residue | Record | Unexpected

  function KindOf(name: string): Kind
  {
    if EndsWith(name, ".lease") then Lease
    else if IsOwnerProbe(name) || IsJournalTemporary(name) then Residue
    else if EndsWith(name, ".json") && ValidExecutionId(name[..|name| - 5]) then Record
    else Unexpected
  }

  /** Journals are taken for records and leases for leases, never for residue. */
  lemma KindOfOwnNames(id: string)
    requires ValidExecutionId(id)
    ensures KindOf(JournalName(id)) == Record && KindOf(LeaseName(id)) == Lease
  {
    var name := JournalName(id);
    RecordsAreNotResidue(id, name);
    assert name[|name| - 1] == 'n' && name[|id|..] == ".json" && name[..|id|] == id;
    assert LeaseName(id)[|id|..] == ".lease";
  }

  /** A temporary of a journal operation is taken for residue. */
  lemma KindOfTemporaries(n: string, operation: string)
    requires EndsWith(operation, ".json")
    ensures TemporaryOperation(n) == Some(operation) ==> KindOf(n) == Residue
  {
    if TemporaryOperation(n) == Some(operation) {
      assert n == "." + Stem(n).value + ".tmp";
      assert n[|n| - 1] == 'p';
    }
  }

  /** Every name is one thing: a lease, a probe or a journal's temporary, the journal of an execution, or unexpected. */
  lemma KindExactly(name: string)
    ensures KindOf(name) == Lease <==> EndsWith(name, ".lease")
    ensures KindOf(name) == Residue <==> IsOwnerProbe(name) || IsJournalTemporary(name)
    ensures KindOf(name) == Record <==> exists id | ValidExecutionId(id) :: name == JournalName(id)
  {
    hide ValidExecutionId;
    if IsOwnerProbe(name) {
      ProbeEndsInDigit(name);
    }
    hide IsOwnerProbe;
    if IsJournalTemporary(name) {
      assert Stem(name).Some? && name[|name| - 1] == 'p';
    }
    hide IsJournalTemporary;
    if KindOf(name) == Record {
      assert name == JournalName(name[..|name| - 5]);
    }
    forall id | ValidExecutionId(id) && name == JournalName(id)
      ensures KindOf(name) == Record
    {
      KindOfOwnNames(id);
    }
  }

  lemma ProbeEndsInDigit(name: string)
    requires IsOwnerProbe(name)
    ensures name != "" && IsDigit(name[|name| - 1])
  {
    var rest := StripPrefix(name, PROBE_PREFIX).value;
    ProbeTail(rest);
    var parts := Split(rest, '-');
    var last := parts[|parts| - 1];
    assert last[|last| - 1] in last;
  }

  /** The journals, by file name. */
  function Journals(entries: Entries): map<string, Bytes>
  {
    map n | n in entries && KindOf(n) == Record :: entries[n].bytes
  }

  /** Every journal is as it was before, or as it was given. */
  ghost predicate Stems(before: map<string, Bytes>, now: map<string, Bytes>, given: set<(string, Bytes)>)
  {
    forall n | n in now :: (n in before && now[n] == before[n]) || (n, now[n]) in given
  }

  /** A journal directory holds journals, leases and residue only. */
  ghost predicate WellFormed(entries: Entries)
  {
    forall n | n in entries :: KindOf(n) != Unexpected
  }

  lemma ConfinedJournals(before: Entries, after: Entries, name: string, operation: string)
    requires Confined(before, after, name, operation)
    requires KindOf(name) == Record && EndsWith(operation, ".json")
    ensures Journals(after) ==
            match Lookup(after, name)
            case None => Journals(before) - {name}
            case Some(file) => Journals(before)[name := file.bytes]
  {
    hide TemporaryOperation, KindOf, EndsWith;
    forall n | n != name && KindOf(n) == Record
      ensures n in after <==> n in before
      ensures n in after ==> after[n] == before[n]
    {
      KindOfTemporaries(n, operation);
      assert Lookup(after, n) == Lookup(before, n);
    }
  }

  lemma ConfinedKeepsWellFormed(before: Entries, after: Entries, name: string, operation: string)
    requires Confined(before, after, name, operation)
    requires KindOf(name) == Record && EndsWith(operation, ".json")
    requires WellFormed(before)
    ensures WellFormed(after)
  {
    hide TemporaryOperation, KindOf, EndsWith;
    forall n | n in after
      ensures KindOf(n) != Unexpected
    {
      KindOfTemporaries(n, operation);
      if n != name && TemporaryOperation(n) != Some(operation) {
        assert Lookup(after, n) == Lookup(before, n);
      }
    }
  }

  lemma UnboundIsNoRecord(entries: Entries, name: string)
    ensures name !in entries ==> Records(entries) - {name} == Records(entries)
  {
  }

  lemma BoundIsRecord(entries: Entries, name: string)
    ensures name in entries && !IsResidue(name) ==> Records(entries)[name := entries[name].bytes] == Records(entries)
  {
  }

  lemma UnboundIsNoJournal(entries: Entries, name: string)
    ensures name !in entries ==> Journals(entries) - {name} == Journals(entries)
  {
  }

  lemma BoundIsJournal(entries: Entries, name: string)
    ensures name in entries && KindOf(name) == Record ==> Journals(entries)[name := entries[name].bytes] == Journals(entries)
  {
  }

  lemma LargerSet(a: set<string>, b: set<string>)
    requires a <= b
    ensures |a| <= |b|
  {
    var rest := b - a;
    assert b == a + rest;
  }

  /** The names read from the directory: each one once. */
  ghost predicate Lists(listed: seq<string>, entries: Entries)
  {
    && (forall n :: n in listed <==> n in entries)
    && (forall i, j | 0 <= i < j < |listed| :: listed[i] != listed[j])
  }

  /** The listing after the names in `done`: the residue and the journals among them. */
  ghost predicate Listed(entries: Entries, done: seq<string>, journals: map<string, Bytes>, residue: set<string>)
  {
    && (forall n | n in done :: n in entries && KindOf(n) != Unexpected)
    && residue == (set n | n in done && KindOf(n) == Residue)
    && journals.Keys == (set n | n in done && KindOf(n) == Record)
    && (forall n | n in journals :: journals[n] == entries[n].bytes)
  }

  lemma ListedNone(entries: Entries)
    ensures Listed(entries, [], map[], {})
  {
  }

  lemma ListedOneMore(entries: Entries, done: seq<string>, journals: map<string, Bytes>, residue: set<string>, n: string)
    requires Listed(entries, done, journals, residue) && n in entries && n !in done && KindOf(n) != Unexpected
    ensures n !in residue
    ensures Listed(entries, done + [n], if KindOf(n) == Record then journals[n := entries[n].bytes] else journals,
                   if KindOf(n) == Residue then residue + {n} else residue)
  {
    hide KindOf;
  }

  /** Having listed all names, one has all journals, all residue and nothing unexpected. */
  lemma ListedAll(entries: Entries, done: seq<string>, journals: map<string, Bytes>, residue: set<string>)
    requires Listed(entries, done, journals, residue) && forall n | n in entries :: n in done
    ensures WellFormed(entries) && journals == Journals(entries) && residue == ResidueOf(entries)
  {
    hide KindOf;
  }

  lemma ListedResidue(entries: Entries, done: seq<string>, journals: map<string, Bytes>, residue: set<string>)
    requires Listed(entries, done, journals, residue)
    ensures |residue| <= |ResidueOf(entries)|
  {
    hide KindOf;
    LargerSet(residue, ResidueOf(entries));
  }

  function ResidueOf(entries: Entries): set<string>
  {
    set n | n in entries && KindOf(n) == Residue
  }

  class Directory {
    var entries: Entries
    var counter: nat
    var nextInode: nat
    const process: nat

    constructor (process: nat)
      ensures entries == map[] && WellFormed(entries)
    {
      entries, counter, nextInode, this.process := map[], 0, 0, process;
    }

    // ------------------------------------------------------------------------- steps

    method NextName(operation: string) returns (name: string, ghost epoch: nat)
      requires operation != ""
      modifies `counter
      ensures TemporaryOperation(name) == Some(operation) && |name| > |operation| && counter == old(counter) + 1
      ensures name == TemporaryName(operation, process, epoch, old(counter))
    {
      hide TemporaryOperation, TemporaryName;
      var now: nat := *;
      name, epoch := TemporaryName(operation, process, now, counter), now;
      GeneratedParses(operation, process, now, counter);
      counter := counter + 1;
    }

    /** As many names were generated as may be, and each was taken. */
    twostate predicate OutOfNames(operation: string)
      reads `counter
    {
      && counter == old(counter) + MAX_TEMPORARY_NAME_ATTEMPTS
      && forall k | old(counter) <= k < counter :: Taken(old(entries), process, operation, k)
    }

    method CreateTemporary(operation: string, reliable: bool) returns (r: Option<(string, nat)>)
      requires operation != ""
      modifies `entries, `counter, `nextInode
      ensures r.None? ==> entries == old(entries)
      ensures reliable && r.None? ==> OutOfNames(operation)
      ensures r.Some? ==>
        var (t, inode) := r.value;
        && t !in old(entries) && entries == old(entries)[t := File(inode, [])]
        && TemporaryOperation(t) == Some(operation) && |t| > |operation|
    {
      hide TemporaryOperation;
      for attempt := 0 to MAX_TEMPORARY_NAME_ATTEMPTS
        invariant entries == old(entries) && counter == old(counter) + attempt
        invariant forall k | old(counter) <= k < counter :: Taken(entries, process, operation, k)
      {
        var name, epoch := NextName(operation);
        var refused: bool := *;
        if name !in entries {
          if refused && !reliable { return None; }
          entries := entries[name := File(nextInode, [])];
          nextInode := nextInode + 1;
          return Some((name, nextInode - 1));
        }
      }
      return None;
    }

    /** A failed or interrupted write leaves some prefix. */
    method Write(t: string, bytes: Bytes, reliable: bool) returns (ok: bool)
      requires t in entries
      modifies `entries
      ensures reliable ==> ok
      ensures t in entries && entries == old(entries)[t := entries[t]] && entries[t].inode == old(entries)[t].inode
      ensures entries[t].bytes <= bytes && (ok ==> entries[t].bytes == bytes)
    {
      var written :| 0 <= written <= |bytes| && (reliable ==> written == |bytes|);
      entries := entries[t := entries[t].(bytes := bytes[..written])];
      var reported: bool := *;
      ok := written == |bytes| && (reliable || reported);
    }

    /** Unlink a name if it still is the expected file. */
    method RemoveVerified(name: string, inode: nat, reliable: bool) returns (ok: bool)
      modifies `entries
      ensures reliable && name in old(entries) && old(entries)[name].inode == inode ==> ok
      ensures ok ==> name in old(entries) && entries == old(entries) - {name}
      ensures entries == old(entries)
        || (name in old(entries) && old(entries)[name].inode == inode && entries == old(entries) - {name})
    {
      ok := name in entries && entries[name].inode == inode;
      var applied: bool, reported: bool := *, *;
      applied := ok && (applied || reliable);
      if applied {
        entries := entries - {name};
      }
      ok := applied && (reported || reliable);
    }

    /** Rename that refuses to replace; the check after it may fail once it is done. */
    method RenameNoReplace(from: string, to: string, reliable: bool) returns (ok: bool)
      modifies `entries
      ensures reliable && from in old(entries) && to !in old(entries) ==> ok
      ensures ok ==> from in old(entries) && to !in old(entries) && entries == (old(entries) - {from})[to := old(entries)[from]]
      ensures entries == old(entries)
        || (from in old(entries) && to !in old(entries) && entries == (old(entries) - {from})[to := old(entries)[from]])
    {
      var applied: bool, reported: bool := *, *;
      applied := from in entries && to !in entries && (applied || reliable);
      if applied {
        entries := (entries - {from})[to := entries[from]];
      }
      ok := applied && (reported || reliable);
    }

    method Exchange(a: string, b: string, reliable: bool) returns (ok: bool)
      modifies `entries
      ensures reliable && a in old(entries) && b in old(entries) ==> ok
      ensures ok ==> a in old(entries) && b in old(entries) && entries == old(entries)[a := old(entries)[b]][b := old(entries)[a]]
      ensures entries == old(entries)
        || (a in old(entries) && b in old(entries) && entries == old(entries)[a := old(entries)[b]][b := old(entries)[a]])
    {
      var applied: bool, reported: bool := *, *;
      applied := a in entries && b in entries && (applied || reliable);
      if applied {
        entries := entries[a := entries[b]][b := entries[a]];
      }
      ok := applied && (reported || reliable);
    }

    // --------------------------------------------------------------------- operations

    /** At every cut the name is unbound or bound to the whole new record. */
    method CreateRecord(name: string, operation: string, bytes: Bytes, reliable: bool) returns (r: Outcome)
      requires operation != "" && |name| <= |operation|
      modifies `entries, `counter, `nextInode
      ensures Confined(old(entries), entries, name, operation)
      ensures name in old(entries) ==> r.Failed? && entries == old(entries)
      ensures name !in old(entries) && name in entries ==> entries[name].bytes == bytes
      ensures r.Done? ==> name in entries && entries == old(entries)[name := entries[name]]
      ensures reliable && name !in old(entries) ==> r.Done? || OutOfNames(operation)
    {
      hide TemporaryOperation, Confined;
      ConfinedStart(entries, name, operation);
      if name in entries { return Failed; }
      var created := CreateTemporary(operation, reliable);
      if created.None? { return Failed; }
      var (t, inode) := created.value;
      ConfinedStep(old(entries), entries, name, operation, t);
      var written := Write(t, bytes, reliable);
      ConfinedStep(old(entries), entries, name, operation, t);
      var cut: bool := *;
      if cut && !reliable { return Crashed; }
      var committed := false;
      if written {
        committed := RenameNoReplace(t, name, reliable);
        ConfinedStep(old(entries), entries, name, operation, t);
        cut := *;
        if cut && !reliable { return Crashed; }
      }
      if !committed {
        var _ := RemoveVerified(t, inode, reliable);
        ConfinedStep(old(entries), entries, name, operation, t);
        return Failed;
      }
      return Done;
    }

    /** At every cut the name is bound to the whole old or the whole new record. */
    method ReplaceRecord(name: string, operation: string, bytes: Bytes, reliable: bool) returns (r: Outcome)
      requires operation != "" && |name| <= |operation|
      modifies `entries, `counter, `nextInode
      ensures Confined(old(entries), entries, name, operation)
      ensures name !in old(entries) ==> r.Failed? && entries == old(entries)
      ensures name in old(entries) ==> name in entries && (entries[name] == old(entries)[name] || entries[name].bytes == bytes)
      ensures r.Done? ==> name in entries && entries[name].bytes == bytes && entries == old(entries)[name := entries[name]]
      ensures reliable && name in old(entries) ==> r.Done? || OutOfNames(operation)
    {
      hide TemporaryOperation, Confined;
      ConfinedStart(entries, name, operation);
      if name !in entries { return Failed; }
      var expected := entries[name].inode;
      var created := CreateTemporary(operation, reliable);
      if created.None? { return Failed; }
      var (t, inode) := created.value;
      ConfinedStep(old(entries), entries, name, operation, t);
      var written := Write(t, bytes, reliable);
      ConfinedStep(old(entries), entries, name, operation, t);
      var cut: bool := *;
      if cut && !reliable { return Crashed; }
      var exchanged := false;
      if written {
        exchanged := Exchange(t, name, reliable);
        ConfinedStep(old(entries), entries, name, operation, t);
        cut := *;
        if cut && !reliable { return Crashed; }
      }
      if !exchanged {
        var _ := RemoveVerified(t, inode, reliable);
        ConfinedStep(old(entries), entries, name, operation, t);
        return Failed;
      }
      var removed := RemoveVerified(t, expected, reliable);
      ConfinedStep(old(entries), entries, name, operation, t);
      cut := *;
      if cut && !reliable { return Crashed; }
      return if removed then Done else Failed;
    }

    /** `rename_verified`: move a record aside under a fresh temporary name. */
    method MoveAside(name: string, operation: string, reliable: bool) returns (r: Option<string>)
      requires operation != "" && |name| <= |operation| && name in entries
      modifies `entries, `counter
      ensures Confined(old(entries), entries, name, operation)
      ensures name in entries ==> entries == old(entries)
      ensures r.Some? ==>
        && r.value !in old(entries) && TemporaryOperation(r.value) == Some(operation)
        && entries == (old(entries) - {name})[r.value := old(entries)[name]]
      ensures reliable ==> r.Some? || OutOfNames(operation)
    {
      hide TemporaryOperation, Confined;
      ConfinedStart(entries, name, operation);
      for attempt := 0 to MAX_TEMPORARY_NAME_ATTEMPTS
        invariant entries == old(entries) && counter == old(counter) + attempt
        invariant forall k | old(counter) <= k < counter :: Taken(entries, process, operation, k)
      {
        var t, epoch := NextName(operation);
        if t !in entries {
          var moved := RenameNoReplace(name, t, reliable);
          ConfinedStep(old(entries), entries, name, operation, t);
          return if moved then Some(t) else None;
        }
      }
      return None;
    }

    /** At every cut the name is bound to the old record or unbound. */
    method RemoveRecord(name: string, operation: string, reliable: bool) returns (r: Outcome)
      requires operation != "" && |name| <= |operation| && name in entries
      modifies `entries, `counter
      ensures Confined(old(entries), entries, name, operation)
      ensures name in entries ==> entries == old(entries)
      ensures r.Done? ==> entries == old(entries) - {name}
      ensures reliable ==> r.Done? || OutOfNames(operation)
    {
      hide TemporaryOperation, Confined;
      var expected := entries[name].inode;
      var aside := MoveAside(name, operation, reliable);
      var cut: bool := *;
      if cut && !reliable { return Crashed; }
      if aside.None? { return Failed; }
      var removed := RemoveVerified(aside.value, expected, reliable);
      ConfinedStep(old(entries), entries, name, operation, aside.value);
      cut := *;
      if cut && !reliable { return Crashed; }
      return if removed then Done else Failed;
    }

    // ------------------------------------------------------------- metadata directories

    method MetadataCreate(name: string, bytes: Bytes, reliable: bool) returns (r: Outcome)
      modifies `entries, `counter, `nextInode
      ensures name in {"", ".", ".."} || '/' in name || '\\' in name ==> r.Failed? && entries == old(entries)
      ensures r.Done? ==> name in entries && entries[name].bytes == bytes && name !in old(entries)
      ensures !IsResidue(name) ==>
        || Records(entries) == old(Records(entries))
        || (name !in old(entries) && Records(entries) == old(Records(entries))[name := bytes])
      ensures !IsResidue(name) && r.Done? ==> Records(entries) == old(Records(entries))[name := bytes]
      ensures reliable && name !in {"", ".", ".."} && '/' !in name && '\\' !in name && name !in old(entries) ==>
        r.Done? || OutOfNames(MetadataOperation(name))
    {
      hide Confined, IsResidue, Records;
      if !IsSafeName(name) { return Failed; }
      var operation := MetadataOperation(name);
      r := CreateRecord(name, operation, bytes, reliable);
      if !IsResidue(name) {
        ConfinedRecords(old(entries), entries, name, operation);
        UnboundIsNoRecord(old(entries), name);
      }
    }

    method MetadataReplace(name: string, bytes: Bytes, reliable: bool) returns (r: Outcome)
      modifies `entries, `counter, `nextInode
      ensures !IsSafeName(name) ==> r.Failed? && entries == old(entries)
      ensures r.Done? ==> name in entries && entries[name].bytes == bytes
      ensures !IsResidue(name) ==>
        || Records(entries) == old(Records(entries))
        || (name in old(entries) && Records(entries) == old(Records(entries))[name := bytes])
      ensures !IsResidue(name) && r.Done? ==> Records(entries) == old(Records(entries))[name := bytes]
      ensures reliable && IsSafeName(name) && name in old(entries) ==> r.Done? || OutOfNames(MetadataOperation(name))
    {
      hide Confined, IsResidue, Records;
      if !IsSafeName(name) { return Failed; }
      var operation := MetadataOperation(name);
      r := ReplaceRecord(name, operation, bytes, reliable);
      if !IsResidue(name) {
        ConfinedRecords(old(entries), entries, name, operation);
        BoundIsRecord(old(entries), name);
      }
    }

    method MetadataRemove(name: string, reliable: bool) returns (r: Outcome)
      modifies `entries, `counter
      ensures !IsSafeName(name) ==> r.Failed? && entries == old(entries)
      ensures r.Done? ==> name !in entries
      ensures !IsResidue(name) ==>
        || Records(entries) == old(Records(entries))
        || Records(entries) == old(Records(entries)) - {name}
      ensures !IsResidue(name) && r.Done? ==> Records(entries) == old(Records(entries)) - {name}
      ensures reliable && IsSafeName(name) ==> r.Done? || OutOfNames(MetadataRemoval(name))
    {
      hide Confined, IsResidue, Records;
      if !IsSafeName(name) { return Failed; }
      if name !in entries {
        UnboundIsNoRecord(entries, name);
        return Done;
      }
      var operation := MetadataRemoval(name);
      r := RemoveRecord(name, operation, reliable);
      if !IsResidue(name) {
        ConfinedRecords(old(entries), entries, name, operation);
      }
    }

    /**
      `names`, over the names the directory lists. Up to the residue limit the answer is
      the records and nothing else; past it, listing refuses.
     */
    method MetadataNames(listed: seq<string>) returns (r: Result<seq<string>, ()>)
      requires Lists(listed, entries)
      ensures r.Success? <==> |set n | n in entries && IsResidue(n)| <= MAX_IGNORED_RESIDUE_ENTRIES
      ensures r.Success? ==> forall n :: n in r.value <==> n in Records(entries)
    {
      hide IsResidue;
      var records := [];
      ghost var residue := {};
      var ignored := 0;
      for i := 0 to |listed|
        invariant ignored == |residue| <= MAX_IGNORED_RESIDUE_ENTRIES
        invariant forall n :: n in residue <==> n in listed[..i] && IsResidue(n)
        invariant forall n :: n in records <==> n in listed[..i] && !IsResidue(n)
      {
        assert listed[..i + 1] == listed[..i] + [listed[i]];
        if IsResidue(listed[i]) {
          assert listed[i] !in residue;
          ignored, residue := ignored + 1, residue + {listed[i]};
          if ignored > MAX_IGNORED_RESIDUE_ENTRIES {
            LargerSet(residue, set n | n in entries && IsResidue(n));
            return Failure(());
          }
        } else {
          records := records + [listed[i]];
        }
      }
      assert listed[..|listed|] == listed;
      assert residue == set n | n in entries && IsResidue(n);
      return Success(records);
    }

    // -------------------------------------------------------------- journal directories

    method JournalCreate(id: string, bytes: Bytes, reliable: bool) returns (r: Outcome)
      requires ValidExecutionId(id) && WellFormed(entries)
      modifies `entries, `counter, `nextInode
      ensures WellFormed(entries)
      ensures var name := JournalName(id);
        && (name in old(entries) ==> r.Failed? && entries == old(entries))
        && (Journals(entries) == old(Journals(entries)) || Journals(entries) == old(Journals(entries))[name := bytes])
        && (r.Done? ==> Journals(entries) == old(Journals(entries))[name := bytes])
      ensures reliable && JournalName(id) !in old(entries) ==> r.Done? || OutOfNames(JournalName(id))
    {
      hide Confined, Journals, WellFormed, KindOf, ValidExecutionId;
      var name := JournalName(id);
      KindOfOwnNames(id);
      r := CreateRecord(name, name, bytes, reliable);
      ConfinedJournals(old(entries), entries, name, name);
      ConfinedKeepsWellFormed(old(entries), entries, name, name);
      UnboundIsNoJournal(old(entries), name);
    }

    method JournalWrite(id: string, bytes: Bytes, reliable: bool) returns (r: Outcome)
      requires ValidExecutionId(id) && WellFormed(entries)
      modifies `entries, `counter, `nextInode
      ensures WellFormed(entries)
      ensures var name := JournalName(id);
        && (name !in old(entries) ==> r.Failed? && entries == old(entries))
        && (Journals(entries) == old(Journals(entries)) || Journals(entries) == old(Journals(entries))[name := bytes])
        && (r.Done? ==> Journals(entries) == old(Journals(entries))[name := bytes])
      ensures reliable && JournalName(id) in old(entries) ==> r.Done? || OutOfNames(JournalName(id))
    {
      hide Confined, Journals, WellFormed, KindOf, ValidExecutionId;
      var name := JournalName(id);
      KindOfOwnNames(id);
      r := ReplaceRecord(name, name, bytes, reliable);
      ConfinedJournals(old(entries), entries, name, name);
      ConfinedKeepsWellFormed(old(entries), entries, name, name);
      BoundIsJournal(old(entries), name);
    }

    method JournalRemove(id: string, reliable: bool) returns (r: Outcome)
      requires ValidExecutionId(id) && WellFormed(entries)
      modifies `entries, `counter
      ensures WellFormed(entries)
      ensures var name := JournalName(id);
        && (name !in old(entries) ==> r.Failed? && entries == old(entries))
        && (Journals(entries) == old(Journals(entries)) || Journals(entries) == old(Journals(entries)) - {name})
        && (r.Done? ==> Journals(entries) == old(Journals(entries)) - {name})
      ensures reliable && JournalName(id) in old(entries) ==> r.Done? || OutOfNames(JournalRemoval(id))
    {
      hide Confined, Journals, WellFormed, KindOf, ValidExecutionId;
      var name := JournalName(id);
      KindOfOwnNames(id);
      if name !in entries { return Failed; }
      var operation := JournalRemoval(id);
      r := RemoveRecord(name, operation, reliable);
      ConfinedJournals(old(entries), entries, name, operation);
      ConfinedKeepsWellFormed(old(entries), entries, name, operation);
    }

    method EnsureLease(id: string, reliable: bool) returns (ok: bool)
      requires ValidExecutionId(id) && WellFormed(entries)
      modifies `entries, `nextInode
      ensures WellFormed(entries) && Journals(entries) == old(Journals(entries))
      ensures forall n | n in old(entries) :: n in entries && entries[n] == old(entries)[n]
      ensures forall n | n in entries && n !in old(entries) :: n == LeaseName(id)
      ensures (ok ==> LeaseName(id) in entries) && (reliable ==> ok)
      ensures LeaseName(id) in entries && LeaseName(id) !in old(entries) ==>
        entries[LeaseName(id)] == File(old(nextInode), []) && nextInode == old(nextInode) + 1
    {
      var name := LeaseName(id);
      KindOfOwnNames(id);
      hide KindOf, ValidExecutionId;
      var refused: bool := *;
      ok := name in entries || !refused || reliable;
      if name !in entries && ok {
        entries := entries[name := File(nextInode, [])];
        nextInode := nextInode + 1;
      }
      assert Journals(entries) == old(Journals(entries));
    }

    /**
      Up to the residue limit `list` returns exactly the journals, if each of them reads as a
      valid record of its own execution; otherwise it refuses. `entries` are the files: the
      two subdirectories for holds and releases are passed over.
     */
    method JournalList(listed: seq<string>, valid: (string, Bytes) -> bool) returns (r: Result<map<string, Bytes>, ()>)
      requires Lists(listed, entries)
      ensures r.Success? <==>
        && WellFormed(entries) && |ResidueOf(entries)| <= MAX_IGNORED_RESIDUE_ENTRIES
        && forall n | n in Journals(entries) :: valid(n, Journals(entries)[n])
      ensures r.Success? ==> r.value == Journals(entries)
    {
      hide KindOf, Listed, ResidueOf;
      var journals, ignored := map[], 0;
      ghost var residue := {};
      ListedNone(entries);
      for i := 0 to |listed|
        invariant ignored == |residue| <= MAX_IGNORED_RESIDUE_ENTRIES
        invariant Listed(entries, listed[..i], journals, residue)
        invariant forall n | n in journals :: valid(n, journals[n])
      {
        var n := listed[i];
        assert n in entries && n !in listed[..i] && listed[..i + 1] == listed[..i] + [n];
        if KindOf(n) == Unexpected { return Failure(()); }
        ListedOneMore(entries, listed[..i], journals, residue, n);
        if KindOf(n) == Residue {
          ignored, residue := ignored + 1, residue + {n};
          ListedResidue(entries, listed[..i + 1], journals, residue);
          if ignored > MAX_IGNORED_RESIDUE_ENTRIES { return Failure(()); }
        } else if KindOf(n) == Record {
          if !valid(n, entries[n].bytes) {
            assert n in Journals(entries);
            return Failure(());
          }
          journals := journals[n := entries[n].bytes];
        }
      }
      assert listed[..|listed|] == listed;
      ListedAll(entries, listed, journals, residue);
      return Success(journals);
    }

    /**
      Every run of journal operations, with any failures and crashes, keeps the directory
      listable up to the residue limit, and every journal in it is one that was there before
      or, whole, one that was passed to a create or write of its own execution.
     */
    method AnyRun(steps: nat) returns (ghost given: set<(string, Bytes)>)
      requires WellFormed(entries)
      modifies `entries, `counter, `nextInode
      ensures WellFormed(entries)
      ensures forall n | n in Journals(entries) ::
        || (n in old(Journals(entries)) && Journals(entries)[n] == old(Journals(entries))[n])
        || (n, Journals(entries)[n]) in given
    {
      hide WellFormed, Journals, ValidExecutionId;
      given := {};
      for i := 0 to steps
        invariant WellFormed(entries)
        invariant Stems(old(Journals(entries)), Journals(entries), given)
      {
        var id: string, bytes: Bytes := *, *;
        if ValidExecutionId(id) {
          if {
            case true =>
              given := given + {(JournalName(id), bytes)};
              var _ := JournalCreate(id, bytes, false);
            case true =>
              given := given + {(JournalName(id), bytes)};
              var _ := JournalWrite(id, bytes, false);
            case true => var _ := JournalRemove(id, false);
            case true => var _ := EnsureLease(id, false);
          }
        }
      }
    }
  }
}
