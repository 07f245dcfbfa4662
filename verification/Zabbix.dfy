/** Monitoring evidence: a page of rows and counts over every matching row. The source is a snapshot
    of rows that answers fetches, with a limit, and counts, without one. */
module Zabbix {
  import opened Basics
  import opened Text
  import opened Clock
  import opened Types
  import opened Monitoring
  import Execution

  const MAX_LIMIT := 500
  const MAX_CENSUS_ROWS := 20000
  const MAX_HOST_CENSUS_ROWS := 5000
  const MAX_BREAKDOWN_HOSTS := 25

  /** A trigger or an event: its hosts, when it happened, how bad it is, whether it is a problem
      starting (1) or resolving (0), and its name. */
  datatype Row = Row(hosts: seq<string>, clock: int, severity: int, value: int, name: string)

  datatype Params = Params(
    host: string := "",
    from: Option<int> := None,
    till: Option<int> := None,
    search: Option<string> := None,
    minSeverity: Option<int> := None,
    severities: Option<seq<int>> := None,
    values: Option<seq<int>> := None,
    level: Option<int> := None)

  /** The rows newest first, by severity, and in whatever order the source uses when none is asked
      for; and how it matches a search text against a name. */
  datatype Snapshot = Snapshot(
    newest: seq<Row>, worst: seq<Row>, unordered: seq<Row>, like: (string, string) -> bool)
  {
    predicate SameRows() {
      multiset(worst) == multiset(newest) && multiset(unordered) == multiset(newest)
    }
  }

  predicate Selects(like: (string, string) -> bool, p: Params, row: Row) {
    && (p.host != "" ==> p.host in row.hosts)
    && (p.from.Some? ==> row.clock >= p.from.value)
    && (p.till.Some? ==> row.clock <= p.till.value)
    && (p.search.Some? ==> like(p.search.value, row.name))
    && (p.minSeverity.Some? ==> row.severity >= p.minSeverity.value)
    && (p.severities.Some? ==> row.severity in p.severities.value)
    && (p.values.Some? ==> row.value in p.values.value)
    && (p.level.Some? ==> row.severity == p.level.value)
  }

  function Selector(like: (string, string) -> bool, p: Params): Row -> bool {
    (row: Row) => Selects(like, p, row)
  }

  function Matching(s: Snapshot, p: Params): seq<Row> {
    Filter(s.newest, Selector(s.like, p))
  }

  function Fetch(order: seq<Row>, like: (string, string) -> bool, p: Params, limit: nat): seq<Row> {
    var all := Filter(order, Selector(like, p));
    all[..Min(limit, |all|)]
  }

  function CountMatching(s: Snapshot, p: Params): nat {
    Count(s.newest, Selector(s.like, p))
  }

  // ---------------------------------------------------------------- selectors

  predicate Star(c: char) { c == '*' }

  /** strings.Trim(match, "*") */
  function Needle(pattern: string): string {
    TrimRight(TrimLeft(pattern, Star), Star)
  }

  datatype SelectorError = UnknownSeverity | UnsupportedFilter

  /** Adds a step's filters to the parameters in each method's own spelling. */
  method ApplySelectors(t: Runes, before: Params, events: bool, step: RouteStep) returns (r: Result<Params, SelectorError>)
    ensures r.Ok? <==>
      && (step.severity != "" ==> SeverityFloor(t, step.severity).Some?)
      && (step.state != "" ==> events)
    ensures r.Ok? ==>
      && r.value.host == before.host && r.value.from == before.from && r.value.till == before.till
      && r.value.level == before.level
      && r.value.search == (if step.pattern != "" then Some(Needle(step.pattern)) else before.search)
      && r.value.values == (if step.state == "" then before.values
                            else Some([if step.state == STATE_RESOLVED then 0 else 1]))
      && (step.severity == "" ==> r.value.severities == before.severities && r.value.minSeverity == before.minSeverity)
      && (step.severity != "" ==>
            var floor := SeverityFloor(t, step.severity).value;
            if events then
              r.value.minSeverity == before.minSeverity && r.value.severities.Some?
              && forall level :: level in r.value.severities.value <==> floor <= level <= 5
            else r.value.severities == before.severities && r.value.minSeverity == Some(floor))
  {
    hide Normalize, Needle;
    var p := before;
    if step.pattern != "" {
      p := p.(search := Some(Needle(step.pattern)));
    }
    if step.severity != "" {
      var floor := SeverityFloor(t, step.severity);
      if floor.None? {
        return Err(UnknownSeverity);
      }
      if events {
        var levels: seq<int> := [];
        var level := floor.value;
        while level <= 5
          invariant floor.value <= level <= 6
          invariant forall l :: l in levels <==> floor.value <= l < level
        {
          levels := levels + [level];
          level := level + 1;
        }
        p := p.(severities := Some(levels));
      } else {
        p := p.(minSeverity := Some(floor.value));
      }
    }
    if step.state != "" {
      if !events {
        return Err(UnsupportedFilter);
      }
      p := p.(values := Some([if step.state == STATE_RESOLVED then 0 else 1]));
    }
    return Ok(p);
  }

  /** What a step asks of a row, in the request's own terms. */
  predicate Wanted(lib: Library, like: (string, string) -> bool, step: RouteStep, row: Row) {
    && (step.host != "" ==> step.host in row.hosts)
    && (step.since != "" ==> lib.rfc3339(step.since).Some? && row.clock >= lib.rfc3339(step.since).value / SECOND)
    && (step.until != "" ==> lib.rfc3339(step.until).Some? && row.clock <= lib.rfc3339(step.until).value / SECOND)
    && (step.pattern != "" ==> like(Needle(step.pattern), row.name))
    && (step.severity != "" ==>
          SeverityFloor(lib.runes, step.severity).Some? && row.severity >= SeverityFloor(lib.runes, step.severity).value)
    && (step.state != "" ==> row.value == if step.state == STATE_RESOLVED then 0 else 1)
  }

  function Wants(lib: Library, like: (string, string) -> bool, step: RouteStep): Row -> bool {
    (row: Row) => Wanted(lib, like, step, row)
  }

  datatype StepError = BadSince | BadUntil | BadSelector(why: SelectorError)

  /** The parameters of a step. They select exactly the rows the step asks for, among rows with one of
      Zabbix's six severities, whether the method spells a floor as a minimum or as a list. */
  method ParamsOf(lib: Library, events: bool, step: RouteStep) returns (r: Result<Params, StepError>)
    ensures r.Ok? <==>
      && (step.since != "" ==> lib.rfc3339(step.since).Some?)
      && (step.until != "" ==> lib.rfc3339(step.until).Some?)
      && (step.severity != "" ==> SeverityFloor(lib.runes, step.severity).Some?)
      && (step.state != "" ==> events)
    ensures r.Ok? ==> StepParams(lib, step, r.value)
  {
    var p := Params(host := step.host);
    if step.since != "" {
      var moment := lib.rfc3339(step.since);
      if moment.None? {
        return Err(BadSince);
      }
      p := p.(from := Some(moment.value / SECOND));
    }
    if step.until != "" {
      var moment := lib.rfc3339(step.until);
      if moment.None? {
        return Err(BadUntil);
      }
      p := p.(till := Some(moment.value / SECOND));
    }
    var applied := ApplySelectors(lib.runes, p, events, step);
    if applied.Err? {
      return Err(BadSelector(applied.error));
    }
    return Ok(applied.value);
  }

  // ------------------------------------------------------------------ severity

  const UNKNOWN := "unknown"

  function NameOf(level: int): string {
    match level
    case 0 => "not classified"
    case 1 => "information"
    case 2 => "warning"
    case 3 => "average"
    case 4 => "high"
    case 5 => "disaster"
    case _ => UNKNOWN
  }

  function SeverityName(row: Row): string {
    NameOf(row.severity)
  }

  function AtLevel(level: int): Row -> bool {
    (row: Row) => row.severity == level
  }

  predicate Graded(row: Row) {
    0 <= row.severity <= 5
  }

  lemma NamesAreDistinct(a: int, b: int)
    requires 0 <= a <= 5
    ensures NameOf(a) == NameOf(b) <==> a == b
  {
    assert FloorOf(NameOf(a)) == Some(a);
    assert b < 0 || b > 5 ==> FloorOf(NameOf(b)) == None;
  }

  /** One count per severity, for the first n severities. */
  function LevelCounts(rows: seq<Row>, n: nat): map<string, int>
    requires n <= 6
  {
    if n == 0 then map[] else LevelCounts(rows, n - 1)[NameOf(n - 1) := Count(rows, AtLevel(n - 1))]
  }

  function LevelTotal(rows: seq<Row>, n: nat): nat {
    if n == 0 then 0 else LevelTotal(rows, n - 1) + Count(rows, AtLevel(n - 1))
  }

  lemma CountAtLevel(s: Snapshot, p: Params, level: int)
    requires p.level.None?
    ensures CountMatching(s, p.(level := Some(level))) == Count(Matching(s, p), AtLevel(level))
  {
    CountFilter(s.newest, Selector(s.like, p), AtLevel(level), Selector(s.like, p.(level := Some(level))));
  }

  method ExactCensus(s: Snapshot, p: Params) returns (total: nat, counts: map<string, int>)
    requires p.level.None?
    ensures total == LevelTotal(Matching(s, p), 6) && counts == LevelCounts(Matching(s, p), 6)
  {
    total, counts := 0, map[];
    for level := 0 to 6
      invariant total == LevelTotal(Matching(s, p), level) && counts == LevelCounts(Matching(s, p), level)
    {
      var count := CountMatching(s, p.(level := Some(level)));
      CountAtLevel(s, p, level);
      counts := counts[NameOf(level) := count];
      total := total + count;
    }
  }

  /** What a census reports of the rows that match: a tally when they fit in one fetch, otherwise one
      exact count per severity. */
  function CensusTotal(rows: seq<Row>): nat {
    if |rows| < MAX_CENSUS_ROWS then |rows| else LevelTotal(rows, 6)
  }

  function CensusCounts(rows: seq<Row>): map<string, int> {
    if |rows| < MAX_CENSUS_ROWS then Tally(rows, SeverityName) else LevelCounts(rows, 6)
  }

  /** However the source orders them, a fetch that stays short of its limit is all that matches. */
  lemma ShortFetchIsAll(s: Snapshot, order: seq<Row>, p: Params, limit: nat)
    requires multiset(order) == multiset(s.newest)
    ensures var rows := Fetch(order, s.like, p, limit);
      && |rows| == Min(limit, |Matching(s, p)|)
      && (|Matching(s, p)| <= limit ==> multiset(rows) == multiset(Matching(s, p)))
  {
    FilterPermutation(order, s.newest, Selector(s.like, p));
    SameLength(Filter(order, Selector(s.like, p)), Matching(s, p));
    var all := Filter(order, Selector(s.like, p));
    assert all[..|all|] == all;
  }

  method TallySeverities(rows: seq<Row>) returns (counts: map<string, int>)
    ensures counts == Tally(rows, SeverityName)
  {
    counts := map[];
    for i := 0 to |rows|
      invariant counts == Tally(rows[..i], SeverityName)
    {
      assert rows[..i + 1][..i] == rows[..i];
      counts := Bump(counts, NameOf(rows[i].severity));
    }
    assert rows[..|rows|] == rows;
  }

  method SeverityCensus(s: Snapshot, p: Params) returns (total: nat, counts: map<string, int>)
    requires s.SameRows() && p.level.None?
    ensures total == CensusTotal(Matching(s, p)) && counts == CensusCounts(Matching(s, p))
  {
    hide Fetch, Tally, LevelCounts, LevelTotal, Matching;
    var rows := Fetch(s.unordered, s.like, p, MAX_CENSUS_ROWS);
    ShortFetchIsAll(s, s.unordered, p, MAX_CENSUS_ROWS);
    if |rows| >= MAX_CENSUS_ROWS {
      total, counts := ExactCensus(s, p);
      return;
    }
    counts := TallySeverities(rows);
    TallyPermutation(rows, Matching(s, p), SeverityName);
    total := |rows|;
  }

  lemma {:induction false} LevelsPartition(rows: seq<Row>, n: nat)
    requires n <= 6
    ensures LevelTotal(rows, n) == Count(rows, (row: Row) => 0 <= row.severity < n)
    ensures Sum(LevelCounts(rows, n)) == LevelTotal(rows, n)
    ensures forall l :: 0 <= l < n ==> At(LevelCounts(rows, n), NameOf(l)) == Count(rows, AtLevel(l))
    ensures forall l :: n <= l <= 5 ==> NameOf(l) !in LevelCounts(rows, n)
  {
    hide NameOf, Sum;
    if n == 0 {
      SumNothing(LevelCounts(rows, 0));
      NothingCounted(rows, (row: Row) => 0 <= row.severity < 0);
    } else {
      LevelsPartition(rows, n - 1);
      AddLevel(rows, n - 1, (row: Row) => 0 <= row.severity < n - 1, (row: Row) => 0 <= row.severity < n);
      forall l | 0 <= l <= 5
        ensures NameOf(l) == NameOf(n - 1) <==> l == n - 1
      {
        NamesAreDistinct(l, n - 1);
      }
      SumUpdate(LevelCounts(rows, n - 1), NameOf(n - 1), Count(rows, AtLevel(n - 1)));
    }
  }

  lemma NothingCounted(rows: seq<Row>, p: Row -> bool)
    requires forall row :: !p(row)
    ensures Count(rows, p) == 0
  {}

  lemma {:induction false} AddLevel(rows: seq<Row>, level: int, below: Row -> bool, upTo: Row -> bool)
    requires forall row :: upTo(row) <==> below(row) || row.severity == level
    requires forall row :: below(row) ==> row.severity != level
    ensures Count(rows, upTo) == Count(rows, below) + Count(rows, AtLevel(level))
  {
    if rows != [] {
      AddLevel(rows[1..], level, below, upTo);
    }
  }

  /** The census refines plain counting: whenever every matching row has one of the six severities,
      the total is the number of matching rows, each severity's count is the number of rows at it, and
      the counts sum to the total, on the path that tallies rows and on the one that asks for counts. */
  lemma CensusIsTrue(rows: seq<Row>)
    requires forall row :: row in rows ==> Graded(row)
    ensures CensusTotal(rows) == |rows|
    ensures forall l :: 0 <= l <= 5 ==> At(CensusCounts(rows), NameOf(l)) == Count(rows, AtLevel(l))
    ensures Sum(CensusCounts(rows)) == CensusTotal(rows)
  {
    TotalIsTrueIffGraded(rows);
    if |rows| < MAX_CENSUS_ROWS {
      TallySums(rows, SeverityName);
      forall l | 0 <= l <= 5
        ensures At(Tally(rows, SeverityName), NameOf(l)) == Count(rows, AtLevel(l))
      {
        forall row: Row
          ensures AtLevel(l)(row) <==> SeverityName(row) == NameOf(l)
        {
          NamesAreDistinct(l, row.severity);
        }
        TallyCounts(rows, SeverityName, NameOf(l), AtLevel(l));
      }
    } else {
      LevelsPartition(rows, 6);
    }
  }

  /** A tally of rows always totals them. The counting path totals them exactly when each has one of
      the six severities; any other row is in no count. */
  lemma TotalIsTrueIffGraded(rows: seq<Row>)
    ensures CensusTotal(rows) == |rows| <==> |rows| < MAX_CENSUS_ROWS || forall row :: row in rows ==> Graded(row)
  {
    if |rows| >= MAX_CENSUS_ROWS {
      LevelsPartition(rows, 6);
      var graded, all := (row: Row) => 0 <= row.severity < 6, (row: Row) => true;
      CountImplies(rows, graded, all);
      AllCounted(rows, all);
    }
  }

  lemma AllCounted(rows: seq<Row>, p: Row -> bool)
    requires forall row :: p(row)
    ensures Count(rows, p) == |rows|
  {}

  // --------------------------------------------------------------------- hosts

  /** The host a census counts a row under. */
  function HostKey(row: Row): string {
    if row.hosts == [] then UNKNOWN else row.hosts[0]
  }

  function Newest(rows: seq<Row>): seq<Row> {
    rows[..Min(|rows|, MAX_HOST_CENSUS_ROWS)]
  }

  method HostCensus(s: Snapshot, p: Params) returns (counts: map<string, int>, examined: nat)
    ensures counts == Tally(Newest(Matching(s, p)), HostKey)
    ensures examined == |Newest(Matching(s, p))|
  {
    var rows := Fetch(s.newest, s.like, p, MAX_HOST_CENSUS_ROWS);
    counts := map[];
    for i := 0 to |rows|
      invariant counts == Tally(rows[..i], HostKey)
    {
      assert rows[..i + 1][..i] == rows[..i];
      var host := UNKNOWN;
      if |rows[i].hosts| > 0 {
        host := rows[i].hosts[0];
      }
      counts := Bump(counts, host);
    }
    assert rows[..|rows|] == rows;
    examined := |rows|;
  }

  datatype Entry = Entry(host: string, count: int)

  /** Busier first, then by name. */
  predicate Outranks(a: Entry, b: Entry) {
    a.count > b.count || (a.count == b.count && !Less(b.host, a.host))
  }

  /** The trimmed table: as many entries as allowed, each with its own count, none outranked by an
      entry left out. */
  ghost predicate IsTop(counts: map<string, int>, top: map<string, int>) {
    && |top| == Min(|counts|, MAX_BREAKDOWN_HOSTS)
    && (forall h :: h in top ==> h in counts && top[h] == counts[h])
    && (forall h, other :: h in top && other in counts && other !in top ==>
          Outranks(Entry(h, counts[h]), Entry(other, counts[other])))
  }

  lemma OutranksIsAnOrder()
    ensures TotalPreorder(Outranks)
  {
    forall a, b
      ensures Outranks(a, b) || Outranks(b, a)
    {
      LessTotal(a.host, b.host);
    }
    forall a, b, c | Outranks(a, b) && Outranks(b, c)
      ensures Outranks(a, c)
    {
      if a.count == c.count && Less(c.host, a.host) {
        LessTotal(a.host, b.host);
        LessTotal(b.host, c.host);
        if a.host != b.host {
          LessTransitive(c.host, a.host, b.host);
        }
      }
    }
  }

  /** Only one table qualifies, so the order in which a map is walked cannot show. */
  lemma TopIsUnique(counts: map<string, int>, a: map<string, int>, b: map<string, int>)
    requires IsTop(counts, a) && IsTop(counts, b)
    ensures a == b
  {
    if a.Keys != b.Keys {
      OnlyInOne(a.Keys, b.Keys);
      OnlyInOne(b.Keys, a.Keys);
      var x :| x in a.Keys && x !in b.Keys;
      var y :| y in b.Keys && y !in a.Keys;
      assert Outranks(Entry(x, counts[x]), Entry(y, counts[y]));
      assert Outranks(Entry(y, counts[y]), Entry(x, counts[x]));
      LessTotal(x, y);
    }
  }

  /** The table is of the busiest hosts: any host left out has fewer rows than any host named, or as
      many and a name that does not come first. */
  lemma TopIsBusiest(counts: map<string, int>, top: map<string, int>, named: string, left: string)
    requires IsTop(counts, top) && named in top && left in counts && left !in top
    ensures top[named] == counts[named] >= counts[left]
    ensures counts[named] == counts[left] ==> !Less(left, named)
    ensures |top| == 25 && |counts| > 25
  {
    assert Outranks(Entry(named, counts[named]), Entry(left, counts[left]));
    if |counts| <= 25 {
      assert top.Keys <= counts.Keys && |top.Keys| == |counts.Keys|;
      SubsetOfSameSize(top.Keys, counts.Keys);
      assert false;
    }
  }

  lemma SubsetOfSameSize(a: set<string>, b: set<string>)
    requires a <= b && |a| == |b|
    ensures a == b
  {
    var rest := b - a;
    assert a + rest == b;
    assert |b| == |a| + |rest|;
  }

  lemma OnlyInOne(a: set<string>, b: set<string>)
    requires |a| == |b| && a != b
    ensures exists x :: x in a && x !in b
  {
    if a <= b {
      SubsetOfSameSize(a, b);
    }
  }

  /** Entries list the map, each host once. */
  ghost predicate Lists(entries: seq<Entry>, counts: map<string, int>) {
    && (forall i :: 0 <= i < |entries| ==> entries[i].host in counts && counts[entries[i].host] == entries[i].count)
    && (forall h :: h in counts ==> Entry(h, counts[h]) in entries)
    && |entries| == |counts|
  }

  method TopHosts(counts: map<string, int>) returns (top: map<string, int>)
    ensures IsTop(counts, top)
  {
    if |counts| <= MAX_BREAKDOWN_HOSTS {
      return counts;
    }
    var entries := EntriesOf(counts);
    var sorted := Sort(entries, Outranks);
    OutranksIsAnOrder();
    SortSorts(entries, Outranks);
    SortedLists(entries, sorted, counts);
    top := TakeFirst(sorted, MAX_BREAKDOWN_HOSTS);
    FirstAreTop(counts, sorted, top);
  }

  predicate DistinctHosts(entries: seq<Entry>) {
    forall i, j :: 0 <= i < j < |entries| ==> entries[i].host != entries[j].host
  }

  /** The entry is among the first n. */
  ghost predicate Among(sorted: seq<Entry>, n: nat, entry: Entry)
    requires n <= |sorted|
  {
    exists k :: 0 <= k < n && sorted[k] == entry
  }

  method TakeFirst(sorted: seq<Entry>, n: nat) returns (top: map<string, int>)
    requires n <= |sorted| && DistinctHosts(sorted)
    ensures |top| == n
    ensures forall h :: h in top ==> Among(sorted, n, Entry(h, top[h]))
    ensures forall k :: 0 <= k < n ==> sorted[k].host in top
  {
    top := map[];
    for i := 0 to n
      invariant |top| == i
      invariant forall h :: h in top ==> Among(sorted, i, Entry(h, top[h]))
      invariant forall k :: 0 <= k < i ==> sorted[k].host in top
    {
      hide DistinctHosts, Among;
      FirstAreApart(sorted, i, top);
      top := top[sorted[i].host := sorted[i].count];
    }
  }

  lemma FirstAreApart(sorted: seq<Entry>, i: nat, top: map<string, int>)
    requires i < |sorted| && DistinctHosts(sorted)
    requires forall h :: h in top ==> Among(sorted, i, Entry(h, top[h]))
    ensures sorted[i].host !in top
    ensures var next := top[sorted[i].host := sorted[i].count];
      forall h :: h in next ==> Among(sorted, i + 1, Entry(h, next[h]))
  {
    forall h | h in top
      ensures h != sorted[i].host && Among(sorted, i + 1, Entry(h, top[h]))
    {
      var k :| 0 <= k < i && sorted[k] == Entry(h, top[h]);
    }
    assert Among(sorted, i + 1, sorted[i]);
  }

  lemma FirstAreTop(counts: map<string, int>, sorted: seq<Entry>, top: map<string, int>)
    requires Lists(sorted, counts) && Sorted(sorted, Outranks) && |sorted| > MAX_BREAKDOWN_HOSTS
    requires |top| == MAX_BREAKDOWN_HOSTS
    requires forall h :: h in top ==> Among(sorted, MAX_BREAKDOWN_HOSTS, Entry(h, top[h]))
    requires forall k :: 0 <= k < MAX_BREAKDOWN_HOSTS ==> sorted[k].host in top
    ensures IsTop(counts, top)
  {
    hide Outranks;
    forall h | h in top
      ensures h in counts && top[h] == counts[h]
    {
      var k :| 0 <= k < MAX_BREAKDOWN_HOSTS && sorted[k] == Entry(h, top[h]);
    }
    forall h, other | h in top && other in counts && other !in top
      ensures Outranks(Entry(h, counts[h]), Entry(other, counts[other]))
    {
      var k :| 0 <= k < MAX_BREAKDOWN_HOSTS && sorted[k] == Entry(h, top[h]);
      var j :| 0 <= j < |sorted| && sorted[j] == Entry(other, counts[other]);
      assert j >= MAX_BREAKDOWN_HOSTS;
    }
  }

  method EntriesOf(counts: map<string, int>) returns (entries: seq<Entry>)
    ensures Lists(entries, counts) && DistinctHosts(entries)
  {
    entries := [];
    var todo := counts.Keys;
    while todo != {}
      invariant todo <= counts.Keys
      invariant |entries| + |todo| == |counts|
      invariant forall i :: 0 <= i < |entries| ==>
        entries[i].host in counts && entries[i].host !in todo && counts[entries[i].host] == entries[i].count
      invariant forall h :: h in counts && h !in todo ==> Entry(h, counts[h]) in entries
      invariant DistinctHosts(entries)
      decreases todo
    {
      var host :| host in todo;
      entries := entries + [Entry(host, counts[host])];
      todo := todo - {host};
    }
  }

  lemma SortedLists(entries: seq<Entry>, sorted: seq<Entry>, counts: map<string, int>)
    requires Lists(entries, counts) && DistinctHosts(entries)
    requires multiset(sorted) == multiset(entries) && |sorted| == |entries|
    ensures Lists(sorted, counts) && DistinctHosts(sorted)
  {
    forall i | 0 <= i < |sorted|
      ensures sorted[i] in entries
    {
      assert sorted[i] in multiset(sorted);
    }
    forall h | h in counts
      ensures Entry(h, counts[h]) in sorted
    {
      assert Entry(h, counts[h]) in multiset(entries);
    }
    forall i, j | 0 <= i < j < |sorted|
      ensures sorted[i].host != sorted[j].host
    {
      TwiceInMultiset(sorted, i, j);
      OnceInMultiset(entries, sorted[i]);
      assert sorted[i] in entries && sorted[j] in entries;
    }
  }

  lemma TwiceInMultiset(xs: seq<Entry>, i: nat, j: nat)
    requires i < j < |xs|
    ensures xs[i] == xs[j] ==> multiset(xs)[xs[i]] >= 2
  {
    assert xs == xs[..j] + [xs[j]] + xs[j + 1..];
    assert xs[i] == xs[..j][i] && xs[..j][i] in multiset(xs[..j]);
  }

  lemma {:induction false} OnceInMultiset(xs: seq<Entry>, e: Entry)
    requires DistinctHosts(xs)
    ensures multiset(xs)[e] <= 1
  {
    if xs != [] {
      OnceInMultiset(xs[1..], e);
      assert xs == [xs[0]] + xs[1..];
      if e == xs[0] {
        assert e !in xs[1..];
      }
    }
  }

  // ------------------------------------------------------------------ evidence

  datatype Warning =
    | TopOnly(affected: int)
    | LowerBounds(examined: int, total: int)
    | BoundExcluded(excluded: int, within: int, firing: int)

  datatype Evidence = Evidence(
    items: seq<Row>,
    total: int,
    severities: map<string, int>,
    truncated: bool,
    hostsAffected: int,
    byHost: Option<map<string, int>>,
    ignoringBound: Option<int>,
    warnings: seq<Warning>)

  /** What a host breakdown warns of: names left out of the table, and rows left out of the census. */
  function HostWarnings(affected: int, examined: int, total: int): seq<Warning> {
    (if affected > MAX_BREAKDOWN_HOSTS then [TopOnly(affected)] else [])
    + (if examined >= MAX_HOST_CENSUS_ROWS && total > examined then [LowerBounds(examined, total)] else [])
  }

  method AttachHostBreakdown(s: Snapshot, p: Params, before: Evidence) returns (e: Evidence)
    ensures var counts := Tally(Newest(Matching(s, p)), HostKey);
      && e.byHost.Some? && IsTop(counts, e.byHost.value)
      && e == before.(hostsAffected := |counts|, byHost := e.byHost,
        warnings := before.warnings + HostWarnings(|counts|, |Newest(Matching(s, p))|, before.total))
  {
    hide Tally, IsTop, Newest, Matching;
    var counts, examined := HostCensus(s, p);
    var top := TopHosts(counts);
    e := before.(hostsAffected := |counts|, byHost := Some(top));
    if |counts| > MAX_BREAKDOWN_HOSTS {
      e := e.(warnings := e.warnings + [TopOnly(|counts|)]);
    }
    if examined >= MAX_HOST_CENSUS_ROWS && e.total > examined {
      e := e.(warnings := e.warnings + [LowerBounds(examined, e.total)]);
    }
  }

  /** The first hosts of rows that have one. */
  function NamedHosts(rows: seq<Row>): set<string> {
    set row | row in rows && row.hosts != [] && row.hosts[0] != "" :: row.hosts[0]
  }

  method CountHostsInPage(items: seq<Row>) returns (count: nat)
    ensures count == |NamedHosts(items)|
  {
    var hosts: set<string> := {};
    for i := 0 to |items|
      invariant hosts == NamedHosts(items[..i])
    {
      assert items[..i + 1] == items[..i] + [items[i]];
      if items[i].hosts != [] && items[i].hosts[0] != "" {
        hosts := hosts + {items[i].hosts[0]};
      }
    }
    assert items[..|items|] == items;
    count := |hosts|;
  }

  function WithoutWindow(p: Params): Params {
    p.(from := None, till := None)
  }

  /** A row that passes every filter but the window. */
  function Excluded(like: (string, string) -> bool, p: Params): Row -> bool {
    (row: Row) => Selects(like, WithoutWindow(p), row) && !Selects(like, p, row)
  }

  /** What drops with the window is exactly the rows only the window excludes. */
  lemma WindowExcludes(s: Snapshot, p: Params)
    ensures CountMatching(s, WithoutWindow(p)) == |Matching(s, p)| + Count(s.newest, Excluded(s.like, p))
  {
    SplitCount(s.newest, Selector(s.like, WithoutWindow(p)), Selector(s.like, p), Excluded(s.like, p));
  }

  lemma {:induction false} SplitCount(rows: seq<Row>, wide: Row -> bool, narrow: Row -> bool, rest: Row -> bool)
    requires forall row :: narrow(row) ==> wide(row)
    requires forall row :: rest(row) <==> wide(row) && !narrow(row)
    ensures Count(rows, wide) == Count(rows, narrow) + Count(rows, rest)
  {
    if rows != [] {
      SplitCount(rows[1..], wide, narrow, rest);
    }
  }

  /** States how many rows match once the window is dropped: those that match and those only the window
      excludes. Compared with the number that match it warns, with their number, exactly when the
      window excludes some; compared with less it counts the difference as excluded too. */
  method CompareAgainstNoTimeBound(s: Snapshot, p: Params, within: int, before: Evidence) returns (e: Evidence)
    ensures var excluded := Count(s.newest, Excluded(s.like, p));
      var short := |Matching(s, p)| - within;
      && e.ignoringBound == Some(|Matching(s, p)| + excluded)
      && e == before.(ignoringBound := e.ignoringBound, warnings := e.warnings)
      && e.warnings == before.warnings
        + if excluded + short > 0 then [BoundExcluded(excluded + short, within, |Matching(s, p)| + excluded)] else []
  {
    hide Matching, Excluded;
    var firing := CountMatching(s, WithoutWindow(p));
    WindowExcludes(s, p);
    e := before.(ignoringBound := Some(firing));
    if firing > within {
      e := e.(warnings := e.warnings + [BoundExcluded(firing - within, within, firing)]);
    }
  }

  /** How a page is ordered and how long it is. */
  function PageLimit(requested: int): nat {
    if requested <= 0 || requested > MAX_LIMIT then MAX_LIMIT else requested
  }

  /** What the evidence for a set of parameters says, whatever the rows. */
  ghost predicate Reports(e: Evidence, s: Snapshot, p: Params, limit: nat, recent: bool, compare: bool) {
    var rows := Matching(s, p);
    var counts := Tally(Newest(rows), HostKey);
    && e.items == Fetch(if recent then s.newest else s.worst, s.like, p, limit)
    && e.total == CensusTotal(rows) && e.severities == CensusCounts(rows)
    && e.truncated == (e.total > |e.items|)
    && (if e.truncated then e.hostsAffected == |counts| && e.byHost.Some? && IsTop(counts, e.byHost.value)
        else e.hostsAffected == |NamedHosts(e.items)| && e.byHost.None?)
    && e.warnings == (if e.truncated then HostWarnings(|counts|, |Newest(rows)|, e.total) else [])
      + (if compare then ComparisonWarnings(s, p, e.total) else [])
    && e.ignoringBound == if compare then Some(|rows| + Count(s.newest, Excluded(s.like, p))) else None
  }

  /** What a comparison of a census total with the count that ignores the window warns of. */
  function ComparisonWarnings(s: Snapshot, p: Params, total: int): seq<Warning> {
    var firing := |Matching(s, p)| + Count(s.newest, Excluded(s.like, p));
    if firing > total then [BoundExcluded(firing - total, total, firing)] else []
  }

  method Gather(s: Snapshot, p: Params, limit: nat, recent: bool, compare: bool) returns (e: Evidence)
    requires s.SameRows() && p.level.None?
    ensures Reports(e, s, p, limit, recent, compare)
  {
    hide Tally, IsTop, Newest, Matching, CensusTotal, CensusCounts, Fetch, CountMatching, NamedHosts, HostWarnings, Excluded;
    var items := Fetch(if recent then s.newest else s.worst, s.like, p, limit);
    var total, severities := SeverityCensus(s, p);
    e := Evidence(items, total, severities, total > |items|, 0, None, None, []);
    if e.truncated {
      e := AttachHostBreakdown(s, p, e);
    } else {
      var hosts := CountHostsInPage(items);
      e := e.(hostsAffected := hosts);
    }
    if compare {
      e := CompareAgainstNoTimeBound(s, p, total, e);
    }
  }

  /** The two populations Zabbix answers from. */
  datatype Monitor = Monitor(triggers: Snapshot, events: Snapshot)

  function SnapshotFor(m: Monitor, step: RouteStep): Snapshot {
    if step.action == EventGet then m.events else m.triggers
  }

  /** The log is shown newest first, and so is the current state once a question is about recency. */
  predicate NewestFirst(step: RouteStep) {
    step.action == EventGet || step.since != ""
  }

  /** Only on the current state does a window exclude what is still firing. */
  predicate Compares(step: RouteStep) {
    step.action == TriggerGet && (step.since != "" || step.until != "")
  }

  /** The rows a step asks for. */
  function WantedRows(lib: Library, s: Snapshot, step: RouteStep): seq<Row> {
    Filter(s.newest, Wants(lib, s.like, step))
  }

  /** The rows a step would ask for with no window. */
  function WantedEver(lib: Library, s: Snapshot, step: RouteStep): seq<Row> {
    WantedRows(lib, s, step.(since := "", until := ""))
  }

  /** Evidence answers its step: the page is the start of what was asked for in the step's order, it
      is marked truncated exactly when it is not all of it, the totals and every severity's count are
      those of the rows asked for and sum up; hosts_affected is the number of their hosts, or at least
      no more when a warning says the host census left rows out; and a windowed question about the
      current state says how many rows it would have been without its window and warns exactly when
      that is more. */
  ghost predicate AnswersStep(lib: Library, s: Snapshot, step: RouteStep, e: Evidence) {
    var rows := WantedRows(lib, s, step);
    && e.items == Fetched(if NewestFirst(step) then s.newest else s.worst, Wants(lib, s.like, step), PageLimit(step.limit))
    && e.total == |rows| && (e.truncated <==> |rows| > PageLimit(step.limit))
    && (forall l :: 0 <= l <= 5 ==> At(e.severities, NameOf(l)) == Count(rows, AtLevel(l)))
    && Sum(e.severities) == |rows|
    && (if !e.truncated then e.hostsAffected == |NamedHosts(rows)|
        else if exists w :: w in e.warnings && w.LowerBounds? then
          |rows| > MAX_HOST_CENSUS_ROWS && e.hostsAffected <= |HostsOf(rows)|
        else e.hostsAffected == |HostsOf(rows)|)
    && e.ignoringBound == (if Compares(step) then Some(|WantedEver(lib, s, step)|) else None)
    && ((exists w :: w in e.warnings && w.BoundExcluded?)
        <==> Compares(step) && exists row :: row in WantedEver(lib, s, step) && row !in rows)
    && forall w :: w in e.warnings && w.BoundExcluded? ==>
      w == BoundExcluded(|WantedEver(lib, s, step)| - |rows|, |rows|, |WantedEver(lib, s, step)|)
  }

  function Fetched(order: seq<Row>, wanted: Row -> bool, limit: nat): seq<Row> {
    var all := Filter(order, wanted);
    all[..Min(limit, |all|)]
  }

  /** What a row must be for a step to have asked for it, filter by filter. */
  ghost predicate Fits(lib: Library, like: (string, string) -> bool, step: RouteStep, row: Row) {
    && (step.host != "" ==> step.host in row.hosts)
    && (forall since :: step.since != "" && lib.rfc3339(step.since) == Some(since) ==> row.clock >= since / SECOND)
    && (forall until :: step.until != "" && lib.rfc3339(step.until) == Some(until) ==> row.clock <= until / SECOND)
    && (forall needle :: step.pattern != "" && Stripped(step.pattern, needle) ==> like(needle, row.name))
    && (Asks(lib, step, "information") ==> row.severity >= 1)
    && (Asks(lib, step, "warning") ==> row.severity >= 2)
    && (Asks(lib, step, "average") ==> row.severity >= 3)
    && (Asks(lib, step, "high") ==> row.severity >= 4)
    && (Asks(lib, step, "disaster") ==> row.severity >= 5)
    && (step.state == "resolved" ==> row.value == 0)
    && (step.state != "" && step.state != "resolved" ==> row.value == 1)
  }

  predicate Asks(lib: Library, step: RouteStep, severity: string) {
    step.severity != "" && Normalize(lib.runes, step.severity) == severity
  }

  /** A match text without the stars around it. */
  ghost predicate Stripped(pattern: string, needle: string) {
    && (needle != "" ==> needle[0] != '*' && needle[|needle| - 1] != '*')
    && exists from: nat, to: nat :: Within(pattern, from, to, needle)
  }

  /** Found there, with nothing but stars on either side. */
  predicate Within(pattern: string, from: nat, to: nat, needle: string) {
    && from <= to <= |pattern| && pattern[from..to] == needle
    && (forall i :: 0 <= i < from ==> pattern[i] == '*')
    && (forall i :: to <= i < |pattern| ==> pattern[i] == '*')
  }

  ghost function Fitting(lib: Library, like: (string, string) -> bool, step: RouteStep): Row -> bool {
    (row: Row) => Fits(lib, like, step, row)
  }

  ghost function FittingAt(lib: Library, like: (string, string) -> bool, step: RouteStep, level: int): Row -> bool {
    (row: Row) => Fits(lib, like, step, row) && row.severity == level
  }

  /** The evidence of a step on the population its method answers from and in the order it is shown. */
  ghost predicate ShowsStep(lib: Library, s: Snapshot, order: seq<Row>, compared: bool, step: RouteStep, e: Evidence) {
    var asked := Count(s.newest, Fitting(lib, s.like, step));
    && e.total == asked
    && |e.items| == Min(asked, if 1 <= step.limit <= 500 then step.limit else 500)
    && e.items <= Filter(order, Fitting(lib, s.like, step))
    && (e.truncated <==> asked > |e.items|)
    && At(e.severities, "not classified") == Count(s.newest, FittingAt(lib, s.like, step, 0))
    && At(e.severities, "information") == Count(s.newest, FittingAt(lib, s.like, step, 1))
    && At(e.severities, "warning") == Count(s.newest, FittingAt(lib, s.like, step, 2))
    && At(e.severities, "average") == Count(s.newest, FittingAt(lib, s.like, step, 3))
    && At(e.severities, "high") == Count(s.newest, FittingAt(lib, s.like, step, 4))
    && At(e.severities, "disaster") == Count(s.newest, FittingAt(lib, s.like, step, 5))
    && e.ignoringBound == if compared then Some(Count(s.newest, Fitting(lib, s.like, step.(since := "", until := "")))) else None
  }

  /** One step, from the checks to the evidence. When every row has one of the six severities the
      evidence answers the step, however many rows there are. */
  method Execute(lib: Library, m: Monitor, step: RouteStep) returns (r: Result<Evidence, Execution.StepError>)
    requires m.triggers.SameRows() && m.events.SameRows()
    ensures match Execution.CheckZabbix(lib, step)
            case Some(error) => r == Err(error)
            case None =>
              r.Ok?
              && (exists p: Params {:trigger StepParams(lib, step, p)} :: StepParams(lib, step, p)
                    && Reports(r.value, SnapshotFor(m, step), p, PageLimit(step.limit), NewestFirst(step), Compares(step)))
              && ((forall row :: row in SnapshotFor(m, step).newest ==> Graded(row)) ==>
                    AnswersStep(lib, SnapshotFor(m, step), step, r.value))
    ensures r.Ok? && step.action == EventGet && (forall row :: row in m.events.newest ==> 0 <= row.severity <= 5) ==>
      ShowsStep(lib, m.events, m.events.newest, false, step, r.value)
    ensures r.Ok? && step.action == TriggerGet && (forall row :: row in m.triggers.newest ==> 0 <= row.severity <= 5) ==>
      ShowsStep(lib, m.triggers, if step.since != "" then m.triggers.newest else m.triggers.worst,
        step.since != "" || step.until != "", step, r.value)
  {
    hide Matching, AnswersStep, Reports, Wanted, ShowsStep;
    var refused := Execution.CheckZabbix(lib, step);
    if refused.Some? {
      return Err(refused.value);
    }
    var params := ParamsOf(lib, step.action == EventGet, step);
    var s := SnapshotFor(m, step);
    var e := Gather(s, params.value, PageLimit(step.limit), NewestFirst(step), Compares(step));
    assert StepParams(lib, step, params.value);
    if forall row :: row in s.newest ==> Graded(row) {
      GradedEvidenceAnswers(lib, s, step, params.value, e);
      AnswerShowsStep(lib, s, step, e);
    }
    return Ok(e);
  }

  // ------------------------------------------------------------------- theorems

  /** Parameters made for a step select just what the step wants, of graded rows. */
  ghost predicate StepParams(lib: Library, step: RouteStep, p: Params) {
    && p.level.None?
    && (p.from.Some? <==> step.since != "") && (p.till.Some? <==> step.until != "")
    && forall like, row: Row :: 0 <= row.severity <= 5 ==>
      && (Selects(like, p, row) <==> Wanted(lib, like, step, row))
      && (Selects(like, WithoutWindow(p), row) <==> Wanted(lib, like, step.(since := "", until := ""), row))
  }

  lemma GradedEvidenceAnswers(lib: Library, s: Snapshot, step: RouteStep, p: Params, e: Evidence)
    requires s.SameRows() && StepParams(lib, step, p)
    requires forall row :: row in s.newest ==> Graded(row)
    requires Reports(e, s, p, PageLimit(step.limit), NewestFirst(step), Compares(step))
    ensures AnswersStep(lib, s, step, e)
  {
    hide Matching, WantedRows, WantedEver, Fetch, Fetched, Wanted, Selects, StepParams, HostWarnings, ComparisonWarnings,
      IsTop, CensusTotal, CensusCounts, Excluded, Sum, Tally, Newest, NamedHosts, HostsOf;
    var rows := WantedRows(lib, s, step);
    MatchingIsWanted(lib, s, step, p);
    CensusIsTrue(rows);
    PageIsWanted(lib, s, if NewestFirst(step) then s.newest else s.worst, step, p, PageLimit(step.limit));
    WarningsAnswer(lib, s, step, p, |Tally(Newest(rows), HostKey)|, |Newest(rows)|);
    HostsAnswer(s, p, PageLimit(step.limit), NewestFirst(step), Compares(step), e);
    var compared := if Compares(step) then ComparisonWarnings(s, p, |rows|) else [];
    OneKind(if e.truncated then HostWarnings(|Tally(Newest(rows), HostKey)|, |Newest(rows)|, e.total) else [], compared);
  }

  lemma HostsAnswer(s: Snapshot, p: Params, limit: nat, recent: bool, compare: bool, e: Evidence)
    requires s.SameRows() && Reports(e, s, p, limit, recent, compare)
    requires CensusTotal(Matching(s, p)) == |Matching(s, p)|
    ensures var rows := Matching(s, p);
      if !e.truncated then e.hostsAffected == |NamedHosts(rows)|
      else if exists w :: w in e.warnings && w.LowerBounds? then
        |rows| > MAX_HOST_CENSUS_ROWS && e.hostsAffected <= |HostsOf(rows)|
      else e.hostsAffected == |HostsOf(rows)|
  {
    hide Matching, Fetch, CensusTotal, CensusCounts, IsTop, Tally, NamedHosts, HostsOf, HostWarnings, Excluded, Sum;
    var rows := Matching(s, p);
    if e.truncated {
      HostBreakdownIsExactOrFloor(rows);
      HostTally(Newest(rows));
      assert e.warnings == HostWarnings(|Tally(Newest(rows), HostKey)|, |Newest(rows)|, |rows|)
        + if compare then ComparisonWarnings(s, p, |rows|) else [];
    } else {
      CompletePageNamesEveryHost(s, if recent then s.newest else s.worst, p, limit);
    }
  }

  lemma OneKind(others: seq<Warning>, compared: seq<Warning>)
    requires forall w :: w in others ==> !w.BoundExcluded?
    requires compared == [] || (|compared| == 1 && compared[0].BoundExcluded?)
    ensures (exists w :: w in others + compared && w.BoundExcluded?) <==> compared != []
    ensures forall w :: w in others + compared && w.BoundExcluded? ==> compared == [w]
  {
    if compared != [] {
      assert compared[0] in others + compared;
    }
  }

  lemma WithinIsCore(pattern: string, from: nat, to: nat, needle: string)
    requires Bare(needle, Star)
    ensures Within(pattern, from, to, needle) <==> IsCore(pattern, from, to, needle, Star)
  {
    if from <= to <= |pattern| {
      forall i | to <= i < |pattern|
        ensures pattern[i] == pattern[to..][i - to]
      {}
    }
  }

  /** Trimming the stars of a match text leaves its one stripped form. */
  lemma NeedleIsStripped(pattern: string, needle: string)
    ensures Stripped(pattern, needle) <==> needle == Needle(pattern)
  {
    TrimMeans(pattern, needle, Star);
    NeedleIsBare(pattern, needle);
    hide IsCore, Within;
    if Bare(needle, Star) {
      forall from: nat, to: nat
        ensures Within(pattern, from, to, needle) <==> IsCore(pattern, from, to, needle, Star)
      {
        WithinIsCore(pattern, from, to, needle);
      }
    }
  }

  lemma NeedleIsBare(pattern: string, needle: string)
    ensures IsTrimmed(pattern, needle, Star) ==> Bare(needle, Star)
  {}

  lemma SeverityAsked(lib: Library, step: RouteStep, level: int)
    requires step.severity != "" && SeverityFloor(lib.runes, step.severity).Some? && 0 <= level <= 5
    ensures level >= SeverityFloor(lib.runes, step.severity).value <==>
      && (Asks(lib, step, "information") ==> level >= 1)
      && (Asks(lib, step, "warning") ==> level >= 2)
      && (Asks(lib, step, "average") ==> level >= 3)
      && (Asks(lib, step, "high") ==> level >= 4)
      && (Asks(lib, step, "disaster") ==> level >= 5)
  {
    hide Normalize;
  }

  lemma FitsIsWanted(lib: Library, like: (string, string) -> bool, step: RouteStep, row: Row)
    requires Execution.CheckZabbix(lib, step).None? && Graded(row)
    ensures Fits(lib, like, step, row) <==> Wanted(lib, like, step, row)
  {
    hide Normalize, Needle, Stripped, SeverityFloor, Asks;
    if step.pattern != "" {
      forall needle
        ensures Stripped(step.pattern, needle) <==> needle == Needle(step.pattern)
      {
        NeedleIsStripped(step.pattern, needle);
      }
    }
    if step.severity != "" {
      SeverityAsked(lib, step, row.severity);
    } else {
      NoSeverityAsked(lib, step);
    }
  }

  lemma NoSeverityAsked(lib: Library, step: RouteStep)
    requires step.severity == ""
    ensures forall severity :: !Asks(lib, step, severity)
  {}

  lemma FittingIsWanted(lib: Library, s: Snapshot, step: RouteStep)
    requires Execution.CheckZabbix(lib, step).None? && s.SameRows()
    requires forall row :: row in s.newest ==> Graded(row)
    ensures Filter(s.newest, Fitting(lib, s.like, step)) == WantedRows(lib, s, step)
    ensures Filter(s.worst, Fitting(lib, s.like, step)) == Filter(s.worst, Wants(lib, s.like, step))
    ensures |Filter(s.worst, Fitting(lib, s.like, step))| == Count(s.newest, Fitting(lib, s.like, step)) == |WantedRows(lib, s, step)|
  {
    forall row | row in s.newest || row in s.worst
      ensures Fitting(lib, s.like, step)(row) <==> Wants(lib, s.like, step)(row)
    {
      assert row in multiset(s.newest) <==> row in multiset(s.worst);
      FitsIsWanted(lib, s.like, step, row);
    }
    hide Wanted, Fits;
    FilterSame(s.newest, Fitting(lib, s.like, step), Wants(lib, s.like, step));
    FilterSame(s.worst, Fitting(lib, s.like, step), Wants(lib, s.like, step));
    FilterPermutation(s.worst, s.newest, Fitting(lib, s.like, step));
    SameLength(Filter(s.worst, Fitting(lib, s.like, step)), Filter(s.newest, Fitting(lib, s.like, step)));
  }

  lemma LevelsFit(lib: Library, s: Snapshot, step: RouteStep, level: int)
    requires Execution.CheckZabbix(lib, step).None? && s.SameRows()
    requires forall row :: row in s.newest ==> Graded(row)
    ensures Count(WantedRows(lib, s, step), AtLevel(level)) == Count(s.newest, FittingAt(lib, s.like, step, level))
  {
    hide Fits, Wanted;
    FittingIsWanted(lib, s, step);
    CountFilter(s.newest, Fitting(lib, s.like, step), AtLevel(level), FittingAt(lib, s.like, step, level));
  }

  /** An answer in the step's own terms is the answer case by case. */
  lemma AnswerShowsStep(lib: Library, s: Snapshot, step: RouteStep, e: Evidence)
    requires Execution.CheckZabbix(lib, step).None? && s.SameRows()
    requires forall row :: row in s.newest ==> Graded(row)
    requires AnswersStep(lib, s, step, e)
    ensures ShowsStep(lib, s, if NewestFirst(step) then s.newest else s.worst, Compares(step), step, e)
  {
    hide Fitting, FittingAt, Wants, Filter, Count, Sum, Tally, HostsOf, NamedHosts, At, NameOf;
    FittingIsWanted(lib, s, step);
    FittingIsWanted(lib, s, step.(since := "", until := ""));
    LevelNames();
    forall level | 0 <= level <= 5
      ensures At(e.severities, NameOf(level)) == Count(s.newest, FittingAt(lib, s.like, step, level))
    {
      LevelsFit(lib, s, step, level);
    }
  }

  lemma LevelNames()
    ensures NameOf(0) == "not classified" && NameOf(1) == "information" && NameOf(2) == "warning"
    ensures NameOf(3) == "average" && NameOf(4) == "high" && NameOf(5) == "disaster"
  {}

  lemma MatchingIsWanted(lib: Library, s: Snapshot, step: RouteStep, p: Params)
    requires StepParams(lib, step, p) && forall row :: row in s.newest ==> Graded(row)
    ensures Matching(s, p) == WantedRows(lib, s, step)
    ensures |Matching(s, p)| + Count(s.newest, Excluded(s.like, p)) == |WantedEver(lib, s, step)|
    ensures forall row :: row in WantedRows(lib, s, step) ==> Graded(row)
    ensures (exists row :: row in s.newest && Excluded(s.like, p)(row))
      <==> exists row :: row in WantedEver(lib, s, step) && row !in WantedRows(lib, s, step)
  {
    hide Selects, Wanted;
    var ever := step.(since := "", until := "");
    FilterSame(s.newest, Selector(s.like, p), Wants(lib, s.like, step));
    FilterSame(s.newest, Selector(s.like, WithoutWindow(p)), Wants(lib, s.like, ever));
    WindowExcludes(s, p);
    var wide := Filter(s.newest, Selector(s.like, WithoutWindow(p)));
    assert wide == WantedEver(lib, s, step);
    forall row | row in s.newest
      ensures Excluded(s.like, p)(row) <==> row in wide && row !in Matching(s, p)
    {
      assert row in wide <==> Selects(s.like, WithoutWindow(p), row);
      assert row in Matching(s, p) <==> Selects(s.like, p, row);
    }
  }

  lemma PageIsWanted(lib: Library, s: Snapshot, order: seq<Row>, step: RouteStep, p: Params, limit: nat)
    requires StepParams(lib, step, p) && forall row :: row in s.newest ==> Graded(row)
    requires multiset(order) == multiset(s.newest)
    ensures Fetch(order, s.like, p, limit) == Fetched(order, Wants(lib, s.like, step), limit)
    ensures |Fetch(order, s.like, p, limit)| == Min(limit, |Matching(s, p)|)
  {
    hide Selects, Wanted;
    forall row | row in order
      ensures Selector(s.like, p)(row) <==> Wanted(lib, s.like, step, row)
    {
      assert row in multiset(order) && row in s.newest;
    }
    FilterSame(order, Selector(s.like, p), Wants(lib, s.like, step));
    ShortFetchIsAll(s, order, p, limit);
  }

  /** Host warnings are of other things, so the comparison's own warning is the only one of its kind. */
  lemma WarningsAnswer(lib: Library, s: Snapshot, step: RouteStep, p: Params, affected: int, examined: int)
    requires StepParams(lib, step, p) && forall row :: row in s.newest ==> Graded(row)
    ensures var rows, ever := WantedRows(lib, s, step), WantedEver(lib, s, step);
      var compared := ComparisonWarnings(s, p, |rows|);
      && (forall w :: w in HostWarnings(affected, examined, |rows|) ==> !w.BoundExcluded?)
      && (compared != [] <==> exists row :: row in ever && row !in rows)
      && (compared != [] ==> compared == [BoundExcluded(|ever| - |rows|, |rows|, |ever|)])
  {
    hide Selects, Wanted, StepParams, Matching, WantedRows, WantedEver, Excluded;
    MatchingIsWanted(lib, s, step, p);
    CountPositive(s.newest, Excluded(s.like, p));
  }

  /** The hosts a census would name over all the rows. */
  ghost function HostsOf(rows: seq<Row>): set<string> {
    set row | row in rows :: HostKey(row)
  }

  lemma HostTally(rows: seq<Row>)
    ensures Tally(rows, HostKey).Keys == HostsOf(rows)
    ensures Sum(Tally(rows, HostKey)) == |rows|
  {
    TallySums(rows, HostKey);
    forall h: string
      ensures h in Tally(rows, HostKey) <==> h in HostsOf(rows)
    {
      var under := (row: Row) => HostKey(row) == h;
      TallyCounts(rows, HostKey, h, under);
      CountPositive(rows, under);
    }
  }

  /** Exact or a declared floor: with a true total, the lower-bound warning is given exactly when the
      host census left rows out. Without it hosts_affected is the number of distinct hosts and the
      counts are everyone's, summing to the total. With it no host is invented and no count is over. */
  lemma HostBreakdownIsExactOrFloor(rows: seq<Row>)
    ensures var counts, all := Tally(Newest(rows), HostKey), Tally(rows, HostKey);
      var warned := exists w :: w in HostWarnings(|counts|, |Newest(rows)|, |rows|) && w.LowerBounds?;
      && (warned <==> |Newest(rows)| < |rows|)
      && (!warned ==> counts == all && counts.Keys == HostsOf(rows) && |counts| == |HostsOf(rows)| && Sum(counts) == |rows|)
      && counts.Keys <= HostsOf(rows) && |counts| <= |HostsOf(rows)|
      && (forall h :: At(counts, h) <= At(all, h))
  {
    hide Tally, Sum, Count;
    var newest := Newest(rows);
    HostTally(rows);
    HostTally(newest);
    if |newest| == |rows| {
      assert newest == rows;
    } else {
      assert HostWarnings(|Tally(newest, HostKey)|, |newest|, |rows|)[
        |HostWarnings(|Tally(newest, HostKey)|, |newest|, |rows|)| - 1] == LowerBounds(|newest|, |rows|);
    }
    assert HostsOf(newest) <= HostsOf(rows);
    SubsetIsSmaller(HostsOf(newest), HostsOf(rows));
    forall h: string
      ensures At(Tally(newest, HostKey), h) <= At(Tally(rows, HostKey), h)
    {
      var under := (row: Row) => HostKey(row) == h;
      TallyCounts(newest, HostKey, h, under);
      TallyCounts(rows, HostKey, h, under);
      CountConcat(newest, rows[|newest|..], under);
      assert rows == newest + rows[|newest|..];
    }
  }

  lemma SubsetIsSmaller(a: set<string>, b: set<string>)
    requires a <= b
    ensures |a| <= |b|
  {
    assert b == a + (b - a);
  }

  predicate AnyHostless(rows: seq<Row>) {
    exists row :: row in rows && row.hosts == []
  }

  predicate AnyUnnamed(rows: seq<Row>) {
    exists row :: row in rows && row.hosts != [] && row.hosts[0] == ""
  }

  lemma HostsBesideTheNamed(rows: seq<Row>)
    ensures HostsOf(rows) == NamedHosts(rows)
      + (if AnyHostless(rows) then {UNKNOWN} else {})
      + (if AnyUnnamed(rows) then {""} else {})
  {
    forall h | h in NamedHosts(rows)
      ensures h in HostsOf(rows)
    {
      var row :| row in rows && row.hosts != [] && row.hosts[0] != "" && row.hosts[0] == h;
      assert HostKey(row) == h;
    }
    if row :| row in rows && row.hosts == [] {
      assert HostKey(row) == UNKNOWN;
    }
    if row :| row in rows && row.hosts != [] && row.hosts[0] == "" {
      assert HostKey(row) == "";
    }
  }

  /** The two ways of counting hosts differ only over rows without a named host. The census counts all
      the rows without a host as one more, "unknown", unless a host has that very name, and all those
      whose first host is unnamed as one more; the page counts neither. */
  lemma HostlessRowsCountOnce(rows: seq<Row>)
    ensures |Tally(rows, HostKey)| == |NamedHosts(rows)|
      + (if AnyHostless(rows) && UNKNOWN !in NamedHosts(rows) then 1 else 0)
      + (if AnyUnnamed(rows) then 1 else 0)
  {
    hide Tally, NamedHosts, HostsOf, AnyHostless, AnyUnnamed, HostKey;
    HostTally(rows);
    HostsBesideTheNamed(rows);
    NamedIsNotEmpty(rows);
    TwoMore(NamedHosts(rows), HostsOf(rows), AnyHostless(rows), UNKNOWN, AnyUnnamed(rows), "");
    assert |Tally(rows, HostKey)| == |HostsOf(rows)|;
  }

  lemma TwoMore(named: set<string>, all: set<string>, a: bool, x: string, b: bool, y: string)
    requires x != y && y !in named
    requires all == named + (if a then {x} else {}) + (if b then {y} else {})
    ensures |all| == |named| + (if a && x !in named then 1 else 0) + (if b then 1 else 0)
  {
    var some := if a then named + {x} else named;
    assert all == if b then some + {y} else some;
    OneMore(named, x);
    OneMore(some, y);
  }

  lemma OneMore(hosts: set<string>, host: string)
    ensures |hosts + {host}| == |hosts| + if host in hosts then 0 else 1
  {
    if host in hosts {
      assert hosts + {host} == hosts;
    }
  }

  lemma NamedIsNotEmpty(rows: seq<Row>)
    ensures "" !in NamedHosts(rows) && UNKNOWN != ""
  {}

  /** A page that is not marked truncated is every matching row, so its hosts are all of them. */
  lemma CompletePageNamesEveryHost(s: Snapshot, order: seq<Row>, p: Params, limit: nat)
    requires multiset(order) == multiset(s.newest)
    requires CensusTotal(Matching(s, p)) == |Matching(s, p)|
    requires CensusTotal(Matching(s, p)) <= |Fetch(order, s.like, p, limit)|
    ensures multiset(Fetch(order, s.like, p, limit)) == multiset(Matching(s, p))
    ensures NamedHosts(Fetch(order, s.like, p, limit)) == NamedHosts(Matching(s, p))
  {
    ShortFetchIsAll(s, order, p, limit);
    var items, rows := Fetch(order, s.like, p, limit), Matching(s, p);
    forall row: Row
      ensures row in items <==> row in rows
    {
      assert row in multiset(items) <==> row in multiset(rows);
    }
  }

  /** Compared with a census total, the count that ignores the window is larger exactly when the window
      excludes a row or the census lost one: on the counting path it loses the rows of no known
      severity, and a warning then speaks of a window that may exclude nothing. */
  lemma ComparisonCountsTheExcluded(s: Snapshot, p: Params)
    ensures var rows, warnings := Matching(s, p), ComparisonWarnings(s, p, CensusTotal(Matching(s, p)));
      && (warnings != [] <==>
            || (exists row :: row in s.newest && Excluded(s.like, p)(row))
            || (|rows| >= MAX_CENSUS_ROWS && exists row :: row in rows && !Graded(row)))
      && (CensusTotal(rows) == |rows| && warnings != [] ==>
            warnings == [BoundExcluded(Count(s.newest, Excluded(s.like, p)), |rows|, |rows| + Count(s.newest, Excluded(s.like, p)))])
  {
    hide Excluded, Matching;
    TotalIsTrueIffGraded(Matching(s, p));
    CensusIsNotOver(Matching(s, p));
    CountPositive(s.newest, Excluded(s.like, p));
  }

  lemma CensusIsNotOver(rows: seq<Row>)
    ensures CensusTotal(rows) <= |rows|
  {
    if |rows| >= MAX_CENSUS_ROWS {
      LevelsPartition(rows, 6);
      CountImplies(rows, (row: Row) => 0 <= row.severity < 6, (row: Row) => true);
      AllCounted(rows, (row: Row) => true);
    }
  }
}
