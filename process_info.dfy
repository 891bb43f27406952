/** The snapshot helpers of simple_recorder's ProcessInfo.h. They compare
    the given name with each entry's `szExeFile` by `std::wstring::compare`,
    and treat a snapshot as failed when its handle is NULL or
    INVALID_HANDLE_VALUE (see Toolhelp.Opened). */
module ProcessInfo {
  import opened CaptureTypes
  import opened Toolhelp

  /** The count starts at zero; on a usable snapshot it ends as the number of
      entries whose name equals the given one. */
  method CountProcesses(executableName: string, snapshot: Snapshot) returns (ok: bool, count: nat)
    ensures ok == Opened(snapshot.handle)
    ensures count == if ok then |Matching(WStringCompare, executableName, snapshot.entries)| else 0
  {
    count := 0;
    if !Opened(snapshot.handle) {
      return false, count;
    }
    var entries := snapshot.entries;
    var i := 0;
    while i < |entries|
      invariant 0 <= i <= |entries|
      invariant count == |Matching(WStringCompare, executableName, entries[..i])|
    {
      MatchingStep(WStringCompare, executableName, entries, i);
      if NameMatches(WStringCompare, executableName, entries[i].exeFile) {
        count := count + 1;
      }
      i := i + 1;
    }
    assert entries[..i] == entries;
    return true, count;
  }

  /** The list starts empty; on a usable snapshot it ends as the process ids
      of the matching entries, in snapshot order. */
  method FindProcessIDs(executableName: string, snapshot: Snapshot) returns (ok: bool, processIdList: seq<DWord>)
    ensures ok == Opened(snapshot.handle)
    ensures processIdList == if ok then Pids(Matching(WStringCompare, executableName, snapshot.entries)) else []
  {
    processIdList := [];
    if !Opened(snapshot.handle) {
      return false, processIdList;
    }
    var entries := snapshot.entries;
    var i := 0;
    while i < |entries|
      invariant 0 <= i <= |entries|
      invariant processIdList == Pids(Matching(WStringCompare, executableName, entries[..i]))
    {
      MatchingStep(WStringCompare, executableName, entries, i);
      if NameMatches(WStringCompare, executableName, entries[i].exeFile) {
        PidsSnoc(Matching(WStringCompare, executableName, entries[..i]), entries[i]);
        processIdList := processIdList + [entries[i].processId];
      }
      i := i + 1;
    }
    assert entries[..i] == entries;
    return true, processIdList;
  }

  /** The candidates are the matching entries in snapshot order; the list
      ends as the ids of those no other candidate is the parent of, which is
      an order-preserving selection of the candidates' ids. */
  method FindParentProcessIDs(executableName: string, snapshot: Snapshot) returns (ok: bool, processIdList: seq<DWord>)
    ensures ok == Opened(snapshot.handle)
    ensures !ok ==> processIdList == []
    ensures ok ==>
      var candidates := Matching(WStringCompare, executableName, snapshot.entries);
      && processIdList == Pids(Roots(candidates, candidates))
      && IsSubsequence(processIdList, Pids(candidates))
  {
    processIdList := [];
    if !Opened(snapshot.handle) {
      return false, processIdList;
    }
    var entries := snapshot.entries;
    var processCandidates: seq<ProcessEntry> := [];
    var i := 0;
    while i < |entries|
      invariant 0 <= i <= |entries|
      invariant processCandidates == Matching(WStringCompare, executableName, entries[..i])
    {
      MatchingStep(WStringCompare, executableName, entries, i);
      if NameMatches(WStringCompare, executableName, entries[i].exeFile) {
        processCandidates := processCandidates + [entries[i]];
      }
      i := i + 1;
    }
    assert entries[..i] == entries;

    processIdList := KeepTopLevel(processCandidates);
    TopLevelSubsequence(processCandidates);
    return true, processIdList;
  }
}
