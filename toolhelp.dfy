/** The process snapshot the simple_recorder helpers enumerate, and the
    specification of what they compute from it: the entries whose executable
    name matches, their process ids in snapshot order, and the parent filter
    that keeps only candidates whose parent is not another candidate. */
module Toolhelp {
  import opened CaptureTypes

  /** One `PROCESSENTRY32W`, reduced to the fields the helpers read. */
  datatype ProcessEntry = ProcessEntry(exeFile: string, processId: DWord, parentProcessId: DWord)

  /** A handle value of zero. */
  const NULL_HANDLE: int := 0

  /** The handle CreateToolhelp32Snapshot returns when it fails. */
  const INVALID_HANDLE_VALUE: int := -1

  /** What CreateToolhelp32Snapshot returned, and the entries that
      Process32FirstW / Process32NextW walk through on a usable handle. */
  datatype Snapshot = Snapshot(handle: int, entries: seq<ProcessEntry>)

  /** The entries the enumeration visits: none on a failed handle, because
      Process32FirstW fails on it. */
  function Enumeration(s: Snapshot): (r: seq<ProcessEntry>)
    ensures s.handle == INVALID_HANDLE_VALUE ==> r == []
  {
    if s.handle == INVALID_HANDLE_VALUE then [] else s.entries
  }

  /** The failure test the helpers make, as written: only a NULL handle
      counts as failure, so the value a failed snapshot returns passes. */
  predicate OpenedAsWritten(handle: int)
    ensures handle == INVALID_HANDLE_VALUE ==> OpenedAsWritten(handle)
  {
    handle != NULL_HANDLE
  }

  /** The failure test that is evidently intended: a handle is usable unless
      it is NULL or the INVALID_HANDLE_VALUE a failed snapshot returns. It
      differs from the test as written at that one value only. */
  predicate Opened(handle: int)
    ensures Opened(handle) <==> OpenedAsWritten(handle) && handle != INVALID_HANDLE_VALUE
  {
    handle != NULL_HANDLE && handle != INVALID_HANDLE_VALUE
  }

  /** A wide string as a C string sees it: the characters before the first
      NUL. */
  function CString(s: string): (r: string)
    ensures |r| <= |s| && r == s[..|r|]
    ensures '\0' !in r
    ensures |r| < |s| ==> s[|r|] == '\0'
  {
    if s == [] || s[0] == '\0' then [] else [s[0]] + CString(s[1..])
  }

  /** How a helper compares the name it was given with `szExeFile`:
      `std::wstring::compare` against the NUL-terminated entry name
      (ProcessInfo.h) or `wcscmp` of two NUL-terminated strings
      (ParentProcess.h). */
  datatype Comparison = WStringCompare | Wcscmp

  /** Whether the given name selects an entry. Under the wstring comparison
      a name holding a NUL never matches, since the entry name ends at its
      first NUL. */
  predicate NameMatches(cmp: Comparison, name: string, exeFile: string)
    ensures cmp == WStringCompare && NameMatches(cmp, name, exeFile) ==> '\0' !in name
  {
    match cmp
    case WStringCompare => name == CString(exeFile)
    case Wcscmp => CString(name) == CString(exeFile)
  }

  /** For a name without an embedded NUL the two comparisons agree; they
      differ only in whether what follows a NUL in the name is compared. */
  lemma ComparisonsAgree(name: string, exeFile: string)
    requires '\0' !in name
    ensures NameMatches(WStringCompare, name, exeFile) <==> NameMatches(Wcscmp, name, exeFile)
  {
    CStringOfPlain(name);
  }

  lemma {:induction false} CStringOfPlain(s: string)
    requires '\0' !in s
    ensures CString(s) == s
  {
    if s != [] {
      assert s[0] in s;
      assert forall i :: 0 <= i < |s[1..]| ==> s[1..][i] == s[i + 1];
      CStringOfPlain(s[1..]);
    }
  }

  /** A name with an embedded NUL: wcscmp matches the entry named by its
      first part, the wstring comparison does not. */
  lemma EmbeddedNulDiffers()
    ensures NameMatches(Wcscmp, "a\0b", "a")
    ensures !NameMatches(WStringCompare, "a\0b", "a")
  {
    assert CString("a\0b") == "a" by {
      assert "a\0b"[1..] == "\0b";
    }
    assert CString("a") == "a" by {
      assert "a"[1..] == "";
    }
  }

  /** The entries whose name matches, in snapshot order. */
  function Matching(cmp: Comparison, name: string, entries: seq<ProcessEntry>): (r: seq<ProcessEntry>)
    ensures |r| <= |entries|
  {
    if entries == [] then []
    else
      var last := entries[|entries| - 1];
      var init := Matching(cmp, name, entries[..|entries| - 1]);
      if NameMatches(cmp, name, last.exeFile) then init + [last] else init
  }

  /** An entry is among the matching ones exactly when the snapshot holds it
      and its name matches. */
  lemma {:induction false} MatchingMembers(cmp: Comparison, name: string, entries: seq<ProcessEntry>, e: ProcessEntry)
    ensures e in Matching(cmp, name, entries) <==> e in entries && NameMatches(cmp, name, e.exeFile)
    decreases |entries|
  {
    if entries != [] {
      var init := entries[..|entries| - 1];
      MatchingMembers(cmp, name, init, e);
      assert entries == init + [entries[|entries| - 1]];
    }
  }

  /** The process ids of a run of entries, position by position. */
  function Pids(entries: seq<ProcessEntry>): (r: seq<DWord>)
    ensures |r| == |entries|
    ensures forall i :: 0 <= i < |r| ==> r[i] == entries[i].processId
  {
    seq(|entries|, i requires 0 <= i < |entries| => entries[i].processId)
  }

  /** `b` rules `a` out: `b` is a different process and is `a`'s parent. */
  predicate Excludes(b: ProcessEntry, a: ProcessEntry)
  {
    a.processId != b.processId && a.parentProcessId == b.processId
  }

  /** Some candidate rules `a` out. */
  predicate HasCandidateParent(a: ProcessEntry, candidates: seq<ProcessEntry>)
  {
    exists j :: 0 <= j < |candidates| && Excludes(candidates[j], a)
  }

  /** The candidates, in order, that no candidate in `all` rules out. */
  function Roots(candidates: seq<ProcessEntry>, all: seq<ProcessEntry>): (r: seq<ProcessEntry>)
    ensures |r| <= |candidates|
  {
    if candidates == [] then []
    else
      var last := candidates[|candidates| - 1];
      var init := Roots(candidates[..|candidates| - 1], all);
      if HasCandidateParent(last, all) then init else init + [last]
  }

  /** A candidate is kept exactly when no candidate in `all` rules it out. */
  lemma {:induction false} RootsMembers(candidates: seq<ProcessEntry>, all: seq<ProcessEntry>, e: ProcessEntry)
    ensures e in Roots(candidates, all) <==> e in candidates && !HasCandidateParent(e, all)
    decreases |candidates|
  {
    if candidates != [] {
      var init := candidates[..|candidates| - 1];
      RootsMembers(init, all, e);
      assert candidates == init + [candidates[|candidates| - 1]];
    }
  }

  /** `s` is `t` with some elements left out and the rest in their order:
      the last element of `t` is either skipped or is the last of `s`. */
  predicate IsSubsequence<T(==)>(s: seq<T>, t: seq<T>)
    decreases |t|
  {
    if s == [] then true
    else if t == [] then false
    else
      || IsSubsequence(s, t[..|t| - 1])
      || (s[|s| - 1] == t[|t| - 1] && IsSubsequence(s[..|s| - 1], t[..|t| - 1]))
  }

  /** Extending `t` by one element, and keeping or skipping it, preserves
      the relation. */
  lemma SubsequenceOfExtension<T>(s: seq<T>, t: seq<T>, x: T)
    requires IsSubsequence(s, t)
    ensures IsSubsequence(s, t + [x])
    ensures IsSubsequence(s + [x], t + [x])
  {
    assert (s + [x])[..|s|] == s;
    assert (t + [x])[..|t|] == t;
  }

  /** Reading entry i extends the matching entries of the first i. */
  lemma MatchingStep(cmp: Comparison, name: string, entries: seq<ProcessEntry>, i: nat)
    requires i < |entries|
    ensures Matching(cmp, name, entries[..i + 1])
         == Matching(cmp, name, entries[..i])
            + (if NameMatches(cmp, name, entries[i].exeFile) then [entries[i]] else [])
  {
    assert entries[..i + 1][..i] == entries[..i];
  }

  /** Examining candidate k extends the kept candidates of the first k. */
  lemma RootsStep(candidates: seq<ProcessEntry>, all: seq<ProcessEntry>, k: nat)
    requires k < |candidates|
    ensures Roots(candidates[..k + 1], all)
         == Roots(candidates[..k], all)
            + (if HasCandidateParent(candidates[k], all) then [] else [candidates[k]])
  {
    assert candidates[..k + 1][..k] == candidates[..k];
  }

  /** The ids of a run extended by one entry. */
  lemma PidsSnoc(entries: seq<ProcessEntry>, e: ProcessEntry)
    ensures Pids(entries + [e]) == Pids(entries) + [e.processId]
  {
  }

  /** The matching entries keep their snapshot order. */
  lemma {:induction false} MatchingSubsequence(cmp: Comparison, name: string, entries: seq<ProcessEntry>)
    ensures IsSubsequence(Matching(cmp, name, entries), entries)
    decreases |entries|
  {
    if entries != [] {
      var init := entries[..|entries| - 1];
      var last := entries[|entries| - 1];
      MatchingSubsequence(cmp, name, init);
      SubsequenceOfExtension(Matching(cmp, name, init), init, last);
      assert entries == init + [last];
    }
  }

  /** The kept candidates keep the candidates' order. */
  lemma {:induction false} RootsSubsequence(candidates: seq<ProcessEntry>, all: seq<ProcessEntry>)
    ensures IsSubsequence(Roots(candidates, all), candidates)
    decreases |candidates|
  {
    if candidates != [] {
      var init := candidates[..|candidates| - 1];
      var last := candidates[|candidates| - 1];
      RootsSubsequence(init, all);
      SubsequenceOfExtension(Roots(init, all), init, last);
      assert candidates == init + [last];
    }
  }

  /** Taking process ids position by position preserves a subsequence. */
  lemma {:induction false} PidsSubsequence(s: seq<ProcessEntry>, t: seq<ProcessEntry>)
    requires IsSubsequence(s, t)
    ensures IsSubsequence(Pids(s), Pids(t))
    decreases |t|
  {
    if s != [] && t != [] {
      var ps, pt := Pids(s), Pids(t);
      assert Pids(t[..|t| - 1]) == pt[..|pt| - 1];
      if IsSubsequence(s, t[..|t| - 1]) {
        PidsSubsequence(s, t[..|t| - 1]);
      } else {
        assert Pids(s[..|s| - 1]) == ps[..|ps| - 1];
        PidsSubsequence(s[..|s| - 1], t[..|t| - 1]);
      }
    }
  }

  /** The parent filter's result is the candidates' process ids with some
      left out, in snapshot order. */
  lemma TopLevelSubsequence(candidates: seq<ProcessEntry>)
    ensures IsSubsequence(Pids(Roots(candidates, candidates)), Pids(candidates))
  {
    RootsSubsequence(candidates, candidates);
    PidsSubsequence(Roots(candidates, candidates), candidates);
  }

  /** Soundness and completeness of the parent filter, position by position:
      a candidate's id is reported exactly when no other candidate is its
      parent; one that names itself as parent rules itself out never. */
  lemma TopLevelMembers(candidates: seq<ProcessEntry>, k: nat)
    requires k < |candidates|
    ensures candidates[k] in Roots(candidates, candidates) <==>
            forall j :: 0 <= j < |candidates| ==>
              !(candidates[j].processId != candidates[k].processId
                && candidates[k].parentProcessId == candidates[j].processId)
    ensures candidates[k].parentProcessId == candidates[k].processId ==>
            candidates[k] in Roots(candidates, candidates)
  {
    RootsMembers(candidates, candidates, candidates[k]);
  }

  /** The filter loop both parent-finding helpers run on their candidates:
      each candidate is compared with every candidate, the first one that is
      a different process and its parent skips it (the `goto next`), and the
      other candidates' ids are appended in order. */
  method KeepTopLevel(processCandidates: seq<ProcessEntry>) returns (processIdList: seq<DWord>)
    ensures processIdList == Pids(Roots(processCandidates, processCandidates))
  {
    processIdList := [];
    var k := 0;
    while k < |processCandidates|
      invariant 0 <= k <= |processCandidates|
      invariant processIdList == Pids(Roots(processCandidates[..k], processCandidates))
    {
      var a := processCandidates[k];
      var excluded := false;
      var j := 0;
      while j < |processCandidates|
        invariant 0 <= j <= |processCandidates|
        invariant forall m :: 0 <= m < j ==> !Excludes(processCandidates[m], a)
      {
        var b := processCandidates[j];
        if a.processId != b.processId && a.parentProcessId == b.processId {
          assert Excludes(processCandidates[j], a);
          excluded := true;
          break;
        }
        j := j + 1;
      }
      assert excluded == HasCandidateParent(a, processCandidates);
      RootsStep(processCandidates, processCandidates, k);
      if !excluded {
        PidsSnoc(Roots(processCandidates[..k], processCandidates), a);
        processIdList := processIdList + [a.processId];
      }
      k := k + 1;
    }
    assert processCandidates[..k] == processCandidates;
  }

  /** Matching keeps every matching entry as often as the snapshot holds it
      and drops every other entry. */
  lemma {:induction false} MatchingMultiplicity(cmp: Comparison, name: string, entries: seq<ProcessEntry>, e: ProcessEntry)
    ensures multiset(Matching(cmp, name, entries))[e]
         == if NameMatches(cmp, name, e.exeFile) then multiset(entries)[e] else 0
    decreases |entries|
  {
    if entries != [] {
      var init := entries[..|entries| - 1];
      var last := entries[|entries| - 1];
      MatchingMultiplicity(cmp, name, init, e);
      assert entries == init + [last];
      assert multiset(entries) == multiset(init) + multiset{last};
    }
  }

  /** What CountProcesses / CountAllProcesses report for a snapshot with the
      handle test as written: a failed snapshot passes the NULL test, its
      enumeration is empty, and the helper reports success with a count of
      zero. */
  function CountAsWritten(cmp: Comparison, name: string, s: Snapshot): (r: (bool, nat))
    ensures !r.0 ==> r.1 == 0
  {
    if !OpenedAsWritten(s.handle) then (false, 0)
    else (true, |Matching(cmp, name, Enumeration(s))|)
  }

  /** What FindProcessIDs / FindAllProcesses report with the handle test as
      written: the ids of the matching entries the enumeration visits. */
  function FindAsWritten(cmp: Comparison, name: string, s: Snapshot): (r: (bool, seq<DWord>))
    ensures !r.0 ==> r.1 == []
    ensures |r.1| <= |s.entries|
  {
    if !OpenedAsWritten(s.handle) then (false, [])
    else (true, Pids(Matching(cmp, name, Enumeration(s))))
  }

  /** What FindParentProcessIDs / FindAllParentProcesses report with the
      handle test as written: the parent filter over the matching entries the
      enumeration visits. */
  function FindParentsAsWritten(cmp: Comparison, name: string, s: Snapshot): (r: (bool, seq<DWord>))
    ensures !r.0 ==> r.1 == []
    ensures |r.1| <= |s.entries|
  {
    if !OpenedAsWritten(s.handle) then (false, [])
    else
      var candidates := Matching(cmp, name, Enumeration(s));
      (true, Pids(Roots(candidates, candidates)))
  }

  /** With the handle test as written, the list helpers report success with
      an empty list for a failed snapshot, the same as for a usable snapshot
      in which no process matched. */
  lemma FailedSnapshotListsNothing(cmp: Comparison, name: string, entries: seq<ProcessEntry>, handle: int)
    requires Opened(handle)
    ensures FindAsWritten(cmp, name, Snapshot(INVALID_HANDLE_VALUE, entries))
         == FindAsWritten(cmp, name, Snapshot(handle, []))
         == (true, [])
    ensures FindParentsAsWritten(cmp, name, Snapshot(INVALID_HANDLE_VALUE, entries))
         == FindParentsAsWritten(cmp, name, Snapshot(handle, []))
         == (true, [])
  {
  }

  /** With the handle test as written, a failed snapshot cannot be told apart
      from a successful one in which no process matched. */
  lemma FailedSnapshotLooksEmpty(cmp: Comparison, name: string, entries: seq<ProcessEntry>, handle: int)
    requires Opened(handle)
    ensures CountAsWritten(cmp, name, Snapshot(INVALID_HANDLE_VALUE, entries))
         == CountAsWritten(cmp, name, Snapshot(handle, []))
         == (true, 0)
    ensures !Opened(INVALID_HANDLE_VALUE)
  {
  }
}
