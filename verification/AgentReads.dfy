/** The endpoint agent's bounded reads: a page of a file, its tail, and the process list. */
module AgentReads {
  import opened Basics

  const MAX_INT64 := 0x7fff_ffff_ffff_ffff

  /** The caller's bound, or the agent's own when it is absent or larger. */
  function Clamp(requested: int, cap: int): int {
    if requested <= 0 || requested > cap then cap else requested
  }

  function Increment64(n: int): int {
    if n == MAX_INT64 then -MAX_INT64 - 1 else n + 1
  }

  /** Up to n bytes of a file from an offset; a bound that is not positive reads nothing. */
  function Limited(file: Bytes, offset: nat, n: int): Bytes {
    if offset >= |file| || n <= 0 then [] else file[offset..Min(offset + n, |file|)]
  }

  datatype Page = Page(start: nat, content: Bytes, bytesRead: nat, truncated: bool)

  /** filesystem.read: one byte more than the bound is read, to learn whether there is more. */
  method FilesystemRead(file: Bytes, offset: int, requested: int, cap: int) returns (page: Option<Page>)
    requires 1 <= cap <= MAX_INT64
    ensures page.None? <==> offset < 0
    ensures offset >= 0 ==> page == Some(ReadPage(file, offset, requested, cap))
    ensures page.Some? ==> IsPage(file, offset, if 1 <= requested <= cap then requested else cap, page.value)
  {
    if offset < 0 {
      return None;
    }
    var maxBytes := requested;
    if maxBytes <= 0 || maxBytes > cap {
      maxBytes := cap;
    }
    var content := Limited(file, offset, Increment64(maxBytes));
    OneMore(file, offset, maxBytes);
    var truncated := |content| > maxBytes;
    if truncated {
      content := content[..maxBytes];
    }
    page := Some(Page(offset, content, |content|, truncated));
  }

  /** The bytes of a file at an offset, as many as the bound allows, and whether the file goes on. At
      the largest 64-bit bound nothing is read. */
  ghost predicate IsPage(file: Bytes, offset: nat, bound: int, page: Page) {
    && page.start == offset
    && page.bytesRead == |page.content|
    && |page.content| == (if offset >= |file| || bound == 0x7fff_ffff_ffff_ffff then 0 else Min(bound, |file| - offset))
    && (forall k :: 0 <= k < |page.content| ==> page.content[k] == file[offset + k])
    && (page.truncated <==> bound < 0x7fff_ffff_ffff_ffff && offset + bound < |file|)
  }

  /** Reading one byte past a bound shows whether the file goes on, and cutting it off again leaves
      what reading up to the bound gives. */
  lemma OneMore(file: Bytes, offset: nat, bound: int)
    requires 1 <= bound <= MAX_INT64
    ensures var content := Limited(file, offset, Increment64(bound));
      if bound == MAX_INT64 then content == []
      else
        && (|content| > bound <==> offset + bound < |file|)
        && (if |content| > bound then content[..bound] else content) == Limited(file, offset, bound)
  {
    if bound < MAX_INT64 && offset + bound < |file| {
      assert file[offset..offset + bound + 1][..bound] == file[offset..offset + bound];
    }
  }

  /** What a read promises: the bytes at the offset up to the bound, flagged iff the file goes on. */
  function ReadPage(file: Bytes, offset: nat, requested: int, cap: int): Page
    requires 1 <= cap <= MAX_INT64
  {
    var bound := Clamp(requested, cap);
    var content := if bound == MAX_INT64 then [] else Limited(file, offset, bound);
    Page(offset, content, |content|, bound < MAX_INT64 && offset + bound < |file|)
  }

  /** Reading on by bytes_read while the page is flagged truncated, end to end. */
  function Reassemble(file: Bytes, offset: nat, requested: int, cap: int): Bytes
    requires 1 <= cap <= MAX_INT64
    decreases |file| - offset
  {
    var page := ReadPage(file, offset, requested, cap);
    page.content +
    if page.truncated then Reassemble(file, offset + page.bytesRead, requested, cap) else []
  }

  /** Paging rebuilds the rest of the file from any offset, whatever bound is asked for, exactly when
      the bound in force is short of the largest 64-bit length or there is nothing left to read. At
      that largest length the extra byte wraps the bound to a negative one and nothing is read. */
  lemma {:induction false} PagingRebuildsTheFile(file: Bytes, offset: nat, requested: int, cap: int)
    requires 1 <= cap <= MAX_INT64
    requires offset <= |file|
    ensures Reassemble(file, offset, requested, cap) == file[offset..]
      <==> cap < MAX_INT64 || 1 <= requested < MAX_INT64 || offset == |file|
    decreases |file| - offset
  {
    hide ReadPage;
    var page := ReadPage(file, offset, requested, cap);
    PageFacts(file, offset, requested, cap);
    if page.truncated {
      var next := offset + page.bytesRead;
      PagingRebuildsTheFile(file, next, requested, cap);
      assert file[offset..] == page.content + file[next..];
    }
  }

  lemma PageFacts(file: Bytes, offset: nat, requested: int, cap: int)
    requires 1 <= cap <= MAX_INT64 && offset <= |file|
    ensures var page := ReadPage(file, offset, requested, cap);
      && page.bytesRead == |page.content| && offset + page.bytesRead <= |file|
      && page.content == file[offset..offset + page.bytesRead]
      && (page.truncated ==> page.bytesRead > 0 && offset + page.bytesRead < |file| && Clamp(requested, cap) < MAX_INT64)
      && (!page.truncated ==> if Clamp(requested, cap) < MAX_INT64 then page.content == file[offset..] else page.content == [])
  {}

  /** filesystem.tail: the last bytes of a file, up to the bound. What it returns ends where the file
      ends, is as long as the bound allows, and is flagged iff something precedes it. */
  method FilesystemTail(file: Bytes, requested: int, cap: int) returns (page: Page)
    requires 1 <= cap <= MAX_INT64
    ensures page.start + page.bytesRead == |file|
    ensures page.bytesRead == |page.content|
    ensures page.bytesRead == Min(|file|, if 1 <= requested <= cap then requested else cap)
    ensures page.content == file[page.start..]
    ensures page.truncated <==> page.start > 0
  {
    var maxBytes := requested;
    if maxBytes <= 0 || maxBytes > cap {
      maxBytes := cap;
    }
    var offset := |file| - maxBytes;
    if offset < 0 {
      offset := 0;
    }
    var content := Limited(file, offset, maxBytes);
    page := Page(offset, content, |content|, offset > 0);
  }

  // ------------------------------------------------------------------ processes

  datatype Process = Process(pid: int, ppid: int, name: string, state: string)

  /** An entry of the process file system: a directory whose name reads as a number, or not. */
  datatype ProcEntry = ProcEntry(isDir: bool, pid: Option<int>, record: Process)

  predicate IsProcess(e: ProcEntry) {
    e.isDir && e.pid.Some?
  }

  function ByPid(a: Process, b: Process): bool {
    a.pid <= b.pid
  }

  /** Every process among the entries. */
  function Processes(entries: seq<ProcEntry>): seq<Process> {
    if entries == [] then []
    else (if IsProcess(entries[0]) then [entries[0].record.(pid := entries[0].pid.value)] else [])
         + Processes(entries[1..])
  }

  /** The entry is the directory of a process and gives this record under its number. */
  predicate Yields(e: ProcEntry, p: Process) {
    e.isDir && e.pid == Some(p.pid) && e.record.ppid == p.ppid && e.record.name == p.name && e.record.state == p.state
  }

  /** How many entries give a record. */
  function Yielding(entries: seq<ProcEntry>, p: Process): nat {
    Count(entries, (e: ProcEntry) => Yields(e, p))
  }

  /** How many directories are named by a number. */
  function Numbered(entries: seq<ProcEntry>): nat {
    Count(entries, (e: ProcEntry) => e.isDir && e.pid.Some?)
  }

  /** A record is listed as often as entries give it, and there is one record for every directory
      that is named by a number. */
  lemma {:induction false} ProcessesAreYielded(entries: seq<ProcEntry>, p: Process)
    ensures multiset(Processes(entries))[p] == Yielding(entries, p)
    ensures |Processes(entries)| == Numbered(entries)
  {
    if entries != [] {
      ProcessesAreYielded(entries[1..], p);
      var all := Processes(entries);
      if IsProcess(entries[0]) {
        var record := entries[0].record.(pid := entries[0].pid.value);
        assert all == [record] + Processes(entries[1..]);
      } else {
        assert all == Processes(entries[1..]);
      }
    }
  }

  datatype ProcessPage = ProcessPage(processes: seq<Process>, count: nat, truncated: bool)

  method CollectProcesses(entries: seq<ProcEntry>) returns (records: seq<Process>)
    ensures records == Processes(entries)
  {
    records := [];
    for i := 0 to |entries|
      invariant records + Processes(entries[i..]) == Processes(entries)
    {
      assert entries[i..][1..] == entries[i + 1..];
      if !entries[i].isDir {
        continue;
      }
      if entries[i].pid.None? {
        continue;
      }
      records := records + [entries[i].record.(pid := entries[i].pid.value)];
    }
  }

  /** Lists processes by number, the lowest first when there are more than the agent allows. The sort
      need not be stable: what is said holds whatever it does with equal numbers, and if no number
      repeats it leaves nothing open. */
  method ListProcesses(entries: seq<ProcEntry>, cap: nat) returns (page: ProcessPage)
    ensures page.count == |page.processes| == Min(|Processes(entries)|, cap)
    ensures page.truncated <==> |Processes(entries)| > cap
    ensures page.count == Min(Numbered(entries), cap)
    ensures forall p :: multiset(page.processes)[p] <= Yielding(entries, p)
    ensures !page.truncated ==> forall p :: multiset(page.processes)[p] == Yielding(entries, p)
    ensures Sorted(page.processes, ByPid) && multiset(page.processes) <= multiset(Processes(entries))
    ensures forall kept, dropped ::
      kept in page.processes && dropped in multiset(Processes(entries)) - multiset(page.processes) ==> kept.pid <= dropped.pid
    ensures Strict(Processes(entries), ByPid) ==> page.processes == Sort(Processes(entries), ByPid)[..page.count]
  {
    hide Sort, Processes, ByPid, Sorted, Strict, Yielding, Numbered;
    var records := CollectProcesses(entries);
    CapKeepsTheLowest(records, Min(|records|, cap));
    var sorted := Sort(records, ByPid);
    var truncated := |sorted| > cap;
    ghost var kept := sorted[..Min(|sorted|, cap)];
    if truncated {
      sorted := sorted[..cap];
    }
    assert sorted == kept;
    page := ProcessPage(sorted, |sorted|, truncated);
    ListedAreYielded(entries, sorted);
  }

  lemma ListedAreYielded(entries: seq<ProcEntry>, listed: seq<Process>)
    requires multiset(listed) <= multiset(Processes(entries))
    ensures |Processes(entries)| == Numbered(entries)
    ensures forall p :: multiset(listed)[p] <= Yielding(entries, p)
    ensures |listed| == |Processes(entries)| ==> forall p :: multiset(listed)[p] == Yielding(entries, p)
  {
    hide Yielding, Numbered, Processes;
    var all := Processes(entries);
    forall p
      ensures multiset(all)[p] == Yielding(entries, p)
      ensures |all| == Numbered(entries)
    {
      ProcessesAreYielded(entries, p);
    }
    ProcessesAreYielded(entries, Process(0, 0, "", ""));
    if |listed| == |all| {
      assert |multiset(all) - multiset(listed)| == 0;
      assert multiset(listed) == multiset(all);
    }
  }

  /** The lowest numbers of a list in order: nothing is invented or lost, kept and dropped together are
      all the processes, and none dropped has a lower number than one kept. */
  lemma CapKeepsTheLowest(all: seq<Process>, cap: nat)
    requires cap <= |all|
    ensures var sorted := Sort(all, ByPid);
      && Sorted(sorted[..cap], ByPid)
      && multiset(sorted[..cap]) + multiset(sorted[cap..]) == multiset(all)
      && (forall i, j :: 0 <= i < cap <= j < |sorted| ==> sorted[i].pid <= sorted[j].pid)
      && multiset(sorted[..cap]) <= multiset(all)
      && (forall kept, dropped ::
            kept in sorted[..cap] && dropped in multiset(all) - multiset(sorted[..cap]) ==> kept.pid <= dropped.pid)
  {
    var sorted := Sort(all, ByPid);
    SortSorts(all, ByPid);
    PrefixIsLowest(sorted, cap);
  }

  lemma PrefixIsLowest(sorted: seq<Process>, n: nat)
    requires n <= |sorted| && Sorted(sorted, ByPid)
    ensures Sorted(sorted[..n], ByPid)
    ensures multiset(sorted[..n]) + multiset(sorted[n..]) == multiset(sorted)
    ensures forall i, j :: 0 <= i < n <= j < |sorted| ==> sorted[i].pid <= sorted[j].pid
    ensures forall kept, dropped ::
      kept in sorted[..n] && dropped in multiset(sorted) - multiset(sorted[..n]) ==> kept.pid <= dropped.pid
  {
    assert sorted == sorted[..n] + sorted[n..];
    forall i, j | 0 <= i < n <= j < |sorted|
      ensures sorted[i].pid <= sorted[j].pid
    {
      assert ByPid(sorted[i], sorted[j]);
    }
    var low, high := sorted[..n], sorted[n..];
    forall kept, dropped | kept in low && dropped in multiset(sorted) - multiset(low)
      ensures kept.pid <= dropped.pid
    {
      assert dropped in multiset(high);
      var i :| 0 <= i < n && low[i] == kept;
      var j :| 0 <= j < |high| && high[j] == dropped;
      assert sorted[i].pid <= sorted[n + j].pid;
    }
  }

  /** When no process number repeats there is one list in order, so an unstable sort leaves it too. */
  lemma OneOrder(all: seq<Process>, listed: seq<Process>)
    requires Strict(all, ByPid) && multiset(listed) == multiset(all) && Sorted(listed, ByPid)
    ensures listed == Sort(all, ByPid)
  {
    SortSorts(all, ByPid);
    var sorted := Sort(all, ByPid);
    assert forall p :: p in sorted ==> p in multiset(sorted) && p in multiset(all) && p in all;
    SortedIsUnique(sorted, listed, ByPid);
  }
}
