/** The snapshot helpers of simple_recorder's ParentProcess.h: the same
    walks as ProcessInfo.h, but comparing names with `wcscmp`, so a name
    that holds a NUL is compared only up to it (see
    Toolhelp.EmbeddedNulDiffers). A snapshot is failed when its handle is
    NULL or INVALID_HANDLE_VALUE (see Toolhelp.Opened). */
module ParentProcess {
  import opened CaptureTypes
  import opened Toolhelp

  /** The count starts at zero; on a usable snapshot it ends as the number of
      entries whose name equals the given one as C strings. */
  method CountAllProcesses(name: string, snapshot: Snapshot) returns (ok: bool, count: nat)
    ensures ok == Opened(snapshot.handle)
    ensures count == if ok then |Matching(Wcscmp, name, snapshot.entries)| else 0
  {
    count := 0;
    if !Opened(snapshot.handle) {
      return false, count;
    }
    var entries := snapshot.entries;
    var i := 0;
    while i < |entries|
      invariant 0 <= i <= |entries|
      invariant count == |Matching(Wcscmp, name, entries[..i])|
    {
      MatchingStep(Wcscmp, name, entries, i);
      if NameMatches(Wcscmp, name, entries[i].exeFile) {
        count := count + 1;
      }
      i := i + 1;
    }
    assert entries[..i] == entries;
    return true, count;
  }

  /** The list starts empty; on a usable snapshot it ends as the process ids
      of the matching entries, in snapshot order. */
  method FindAllProcesses(name: string, snapshot: Snapshot) returns (ok: bool, processIds: seq<DWord>)
    ensures ok == Opened(snapshot.handle)
    ensures processIds == if ok then Pids(Matching(Wcscmp, name, snapshot.entries)) else []
  {
    processIds := [];
    if !Opened(snapshot.handle) {
      return false, processIds;
    }
    var entries := snapshot.entries;
    var i := 0;
    while i < |entries|
      invariant 0 <= i <= |entries|
      invariant processIds == Pids(Matching(Wcscmp, name, entries[..i]))
    {
      MatchingStep(Wcscmp, name, entries, i);
      if NameMatches(Wcscmp, name, entries[i].exeFile) {
        PidsSnoc(Matching(Wcscmp, name, entries[..i]), entries[i]);
        processIds := processIds + [entries[i].processId];
      }
      i := i + 1;
    }
    assert entries[..i] == entries;
    return true, processIds;
  }

  /** The candidates are the matching entries in snapshot order; the list
      ends as the ids of those no other candidate is the parent of, an
      order-preserving selection of the candidates' ids. */
  method FindAllParentProcesses(name: string, snapshot: Snapshot) returns (ok: bool, processIds: seq<DWord>)
    ensures ok == Opened(snapshot.handle)
    ensures !ok ==> processIds == []
    ensures ok ==>
      var candidates := Matching(Wcscmp, name, snapshot.entries);
      && processIds == Pids(Roots(candidates, candidates))
      && IsSubsequence(processIds, Pids(candidates))
  {
    processIds := [];
    if !Opened(snapshot.handle) {
      return false, processIds;
    }
    var entries := snapshot.entries;
    var candidates: seq<ProcessEntry> := [];
    var i := 0;
    while i < |entries|
      invariant 0 <= i <= |entries|
      invariant candidates == Matching(Wcscmp, name, entries[..i])
    {
      MatchingStep(Wcscmp, name, entries, i);
      if NameMatches(Wcscmp, name, entries[i].exeFile) {
        candidates := candidates + [entries[i]];
      }
      i := i + 1;
    }
    assert entries[..i] == entries;

    processIds := KeepTopLevel(candidates);
    TopLevelSubsequence(candidates);
    return true, processIds;
  }
}
