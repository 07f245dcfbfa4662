/** Open-ticket evidence: a page, the true total, and breakdowns by queue and by owner. The tracker
    is a snapshot of tickets, newest first, that answers searches; a search is a predicate. */
module RequestTracker {
  import opened Basics
  import opened Text
  import opened Clock
  import opened Types
  import Execution

  const DEFAULT_LIMIT := 100
  const MAX_QUEUE_CENSUS := 20
  const MAX_OWNER_CENSUS := 20

  datatype Ticket = Ticket(id: string, subject: string, status: string, queue: string, owner: string, created: int)

  /** What a composed search asks for; absent parts do not narrow it. */
  datatype Search = Search(host: string, owner: string, since: Option<int>, until: Option<int>, queues: seq<string>)

  /** The tracker: its tickets newest first, and how it matches a subject against a host. */
  datatype Tracker = Tracker(tickets: seq<Ticket>, like: (string, string) -> bool)

  predicate Open(t: Ticket) {
    t.status == "new" || t.status == "open" || t.status == "stalled"
  }

  predicate Selects(like: (string, string) -> bool, s: Search, t: Ticket) {
    && Open(t)
    && (s.queues != [] ==> t.queue in s.queues)
    && (s.host != "" ==> like(s.host, t.subject))
    && (s.owner != "" ==> t.owner == s.owner)
    && (s.since.Some? ==> t.created > s.since.value)
    && (s.until.Some? ==> t.created < s.until.value)
  }

  function Selector(like: (string, string) -> bool, s: Search): Ticket -> bool {
    (t: Ticket) => Selects(like, s, t)
  }

  function Matching(tracker: Tracker, s: Search): seq<Ticket> {
    Filter(tracker.tickets, Selector(tracker.like, s))
  }

  /** The tracker's own count for a search, whatever the page size. */
  function TotalOf(tracker: Tracker, s: Search): nat {
    Count(tracker.tickets, Selector(tracker.like, s))
  }

  function PageOf(tracker: Tracker, s: Search, limit: nat): seq<Ticket> {
    Matching(tracker, s)[..Min(limit, |Matching(tracker, s)|)]
  }

  function QueueCount(tracker: Tracker, s: Search): string -> int {
    (queue: string) => TotalOf(tracker, s.(queues := [queue]))
  }

  function OwnerCount(tracker: Tracker, s: Search): string -> int {
    (owner: string) => TotalOf(tracker, s.(owner := owner))
  }

  // ------------------------------------------------------------------- searches

  /** The configured queues, blank entries dropped; a connector without any is refused. */
  method AllowedQueues(configured: seq<string>) returns (queues: Option<seq<string>>)
    ensures queues.None? <==> forall q :: q in configured ==> TrimSpace(q) == ""
    ensures queues.Some? ==> queues.value != []
    ensures queues.Some? ==> forall q ::
      q in queues.value <==> q != "" && exists c :: c in configured && TrimSpace(c) == q
  {
    var kept: seq<string> := [];
    for i := 0 to |configured|
      invariant forall q :: q in kept <==> q != "" && exists k :: 0 <= k < i && TrimSpace(configured[k]) == q
    {
      var queue := TrimSpace(configured[i]);
      if queue != "" {
        kept := kept + [queue];
      }
    }
    if |kept| == 0 {
      forall q | q in configured
        ensures TrimSpace(q) == ""
      {
        assert TrimSpace(q) !in kept;
      }
      return None;
    }
    assert kept[0] in kept;
    return Some(kept);
  }

  /** A bound as the tracker compares it: whole seconds, absent when the step carries none. */
  function BoundOf(lib: Library, text: string): Option<int> {
    if text == "" then None
    else match lib.rfc3339(text)
      case Some(t) => Some(t / SECOND)
      case None => None
  }

  function SearchFor(lib: Library, queues: seq<string>, step: RouteStep): Search {
    Search(step.host, "", BoundOf(lib, step.since), BoundOf(lib, step.until), queues)
  }

  /** What a step asks of a ticket, in the request's own terms: open, in a reviewed queue, naming the
      host, and created strictly within the bounds. */
  predicate Wanted(lib: Library, like: (string, string) -> bool, queues: seq<string>, step: RouteStep, t: Ticket) {
    && Open(t) && t.queue in queues
    && (step.host != "" ==> like(step.host, t.subject))
    && (step.since != "" ==> lib.rfc3339(step.since).Some? && t.created > lib.rfc3339(step.since).value / SECOND)
    && (step.until != "" ==> lib.rfc3339(step.until).Some? && t.created < lib.rfc3339(step.until).value / SECOND)
  }

  function Wants(lib: Library, like: (string, string) -> bool, queues: seq<string>, step: RouteStep): Ticket -> bool {
    (t: Ticket) => Wanted(lib, like, queues, step, t)
  }

  function WantedTickets(lib: Library, tracker: Tracker, queues: seq<string>, step: RouteStep): seq<Ticket> {
    Filter(tracker.tickets, Wants(lib, tracker.like, queues, step))
  }

  /** A search composed for a step that passed the checks matches just what the step asks for. */
  lemma SearchFindsWanted(lib: Library, tracker: Tracker, queues: seq<string>, step: RouteStep)
    requires queues != [] && Execution.CheckTickets(lib, step).None?
    ensures Matching(tracker, SearchFor(lib, queues, step)) == WantedTickets(lib, tracker, queues, step)
  {
    FilterSame(tracker.tickets, Selector(tracker.like, SearchFor(lib, queues, step)), Wants(lib, tracker.like, queues, step));
  }

  // ----------------------------------------------------------------- censuses

  method QueueCensus(tracker: Tracker, s: Search) returns (counts: map<string, int>)
    ensures counts == Census(s.queues, QueueCount(tracker, s))
  {
    counts := map[];
    for i := 0 to |s.queues|
      invariant counts == Census(s.queues[..i], QueueCount(tracker, s))
    {
      assert s.queues[..i + 1][..i] == s.queues[..i];
      var total := TotalOf(tracker, s.(queues := [s.queues[i]]));
      if total > 0 {
        counts := counts[s.queues[i] := total];
      }
    }
    assert s.queues[..|s.queues|] == s.queues;
  }

  method OwnerCensus(tracker: Tracker, s: Search, owners: seq<string>) returns (counts: map<string, int>)
    ensures counts == Census(owners, OwnerCount(tracker, s))
  {
    counts := map[];
    for i := 0 to |owners|
      invariant counts == Census(owners[..i], OwnerCount(tracker, s))
    {
      assert owners[..i + 1][..i] == owners[..i];
      var total := TotalOf(tracker, s.(owner := owners[i]));
      if total > 0 {
        counts := counts[owners[i] := total];
      }
    }
    assert owners[..|owners|] == owners;
  }

  /** The distinct owners of a page, in the order they are first seen. */
  function FirstSeen(page: seq<Ticket>): (owners: seq<string>)
    ensures forall o :: o in owners <==> o != "" && exists t :: t in page && t.owner == o
    ensures forall i, j :: 0 <= i < j < |owners| ==> owners[i] != owners[j]
  {
    if page == [] then []
    else
      assert page == page[..|page| - 1] + [page[|page| - 1]];
      var before, owner := FirstSeen(page[..|page| - 1]), page[|page| - 1].owner;
      if owner == "" || owner in before then before else before + [owner]
  }

  method OwnersOnPage(page: seq<Ticket>) returns (owners: seq<string>, capped: bool)
    ensures capped <==> |FirstSeen(page)| > MAX_OWNER_CENSUS
    ensures owners == FirstSeen(page)[..Min(|FirstSeen(page)|, MAX_OWNER_CENSUS)]
  {
    var seen: set<string> := {};
    owners, capped := [], false;
    for i := 0 to |page|
      invariant owners == FirstSeen(page[..i]) && seen == set o | o in owners
    {
      assert page[..i + 1][..i] == page[..i];
      var owner := page[i].owner;
      if owner == "" || owner in seen {
        continue;
      }
      seen := seen + {owner};
      owners := owners + [owner];
    }
    assert page[..|page|] == page;
    if |owners| > MAX_OWNER_CENSUS {
      owners := owners[..MAX_OWNER_CENSUS];
      capped := true;
    }
  }

  method SumValues(m: map<string, int>) returns (sum: int)
    ensures sum == Sum(m)
  {
    var rest := m;
    sum := 0;
    while rest != map[]
      invariant sum + Sum(rest) == Sum(m)
      decreases |rest|
    {
      var k :| k in rest;
      SumRemove(rest, k);
      sum := sum + rest[k];
      rest := rest - {k};
    }
  }

  // ----------------------------------------------------------------- evidence

  datatype Warning =
    | QueuesNotComputed(configured: nat)
    | OwnersCapped(unaccounted: int)
    | OwnersIncomplete(accounted: int, total: int)

  datatype Evidence = Evidence(
    items: seq<Ticket>,
    total: nat,
    truncated: bool,
    byQueue: Option<map<string, int>>,
    byOwner: Option<map<string, int>>,
    warnings: seq<Warning>)

  /** The warning an owner breakdown carries, if any. */
  function OwnerWarning(capped: bool, accounted: int, total: int): seq<Warning> {
    if capped then [OwnersCapped(total - accounted)]
    else if accounted < total then [OwnersIncomplete(accounted, total)]
    else []
  }

  function PageLimit(requested: int): nat {
    if requested <= 0 then DEFAULT_LIMIT else requested
  }

  /** What the evidence for a search says. */
  ghost predicate Reports(e: Evidence, tracker: Tracker, s: Search, limit: nat) {
    var owners := FirstSeen(PageOf(tracker, s, limit));
    var named := owners[..Min(|owners|, MAX_OWNER_CENSUS)];
    && e.items == PageOf(tracker, s, limit)
    && e.total == TotalOf(tracker, s) && e.truncated == (e.total > |e.items|)
    && e.byQueue == (if |s.queues| > MAX_QUEUE_CENSUS then None else Some(Census(s.queues, QueueCount(tracker, s))))
    && e.byOwner == (if owners == [] then None else Some(Census(named, OwnerCount(tracker, s))))
    && e.warnings
      == (if |s.queues| > MAX_QUEUE_CENSUS then [QueuesNotComputed(|s.queues|)] else [])
       + (if e.byOwner.Some? then OwnerWarning(|owners| > MAX_OWNER_CENSUS, Sum(e.byOwner.value), e.total) else [])
  }

  method Gather(tracker: Tracker, s: Search, limit: nat) returns (e: Evidence)
    requires s.owner == ""
    ensures Reports(e, tracker, s, limit)
  {
    hide Census, FirstSeen, QueueCount, OwnerCount, PageOf, TotalOf, Sum;
    var items, total := PageOf(tracker, s, limit), TotalOf(tracker, s);
    e := Evidence(items, total, total > |items|, None, None, []);
    if |s.queues| > MAX_QUEUE_CENSUS {
      e := e.(warnings := e.warnings + [QueuesNotComputed(|s.queues|)]);
    } else {
      var breakdown := QueueCensus(tracker, s);
      e := e.(byQueue := Some(breakdown));
    }
    var owners, capped := OwnersOnPage(items);
    if |owners| > 0 {
      var breakdown := OwnerCensus(tracker, s, owners);
      var accounted := SumValues(breakdown);
      e := e.(byOwner := Some(breakdown));
      if capped {
        e := e.(warnings := e.warnings + [OwnersCapped(total - accounted)]);
      } else if accounted < total {
        e := e.(warnings := e.warnings + [OwnersIncomplete(accounted, total)]);
      }
    }
  }

  predicate OfOwners(w: Warning) {
    w.OwnersCapped? || w.OwnersIncomplete?
  }

  /** Evidence answers its step. The page is the newest of the tickets asked for and is marked truncated
      exactly when it is not all of them; the total is theirs. Their breakdown by queue is complete, or
      absent with a warning when there are too many queues. Their breakdown by owner is there when the
      page names an owner, never states a wrong count, and carries no warning exactly when it is
      complete; a cut one falls short by the number its warning states. */
  ghost predicate AnswersStep(lib: Library, tracker: Tracker, queues: seq<string>, step: RouteStep, e: Evidence) {
    var tickets, limit := WantedTickets(lib, tracker, queues, step), PageLimit(step.limit);
    var owners := Tally(tickets, OwnerOf);
    && e.items == tickets[..Min(limit, |tickets|)]
    && e.total == |tickets| && (e.truncated <==> |tickets| > limit)
    && (if |queues| > MAX_QUEUE_CENSUS then e.byQueue.None? && QueuesNotComputed(|queues|) in e.warnings
        else e.byQueue == Some(Tally(tickets, QueueOf)) && Sum(e.byQueue.value) == |tickets|)
    && (e.byOwner.Some? <==> exists t :: t in e.items && t.owner != "")
    && (e.byOwner.None? ==> forall w :: w in e.warnings ==> !OfOwners(w))
    && (e.byOwner.Some? ==>
          && (forall o :: o in e.byOwner.value ==> e.byOwner.value[o] == At(owners, o))
          && ((forall w :: w in e.warnings ==> !OfOwners(w)) <==> forall t :: t in tickets ==> t.owner in e.byOwner.value)
          && (forall n :: OwnersCapped(n) in e.warnings ==> n == |tickets| - Sum(e.byOwner.value) > 0))
  }

  /** What a ticket must be for a step to have asked for it, condition by condition. */
  ghost predicate Fits(lib: Library, like: (string, string) -> bool, queues: seq<string>, step: RouteStep, t: Ticket) {
    && t.status in {"new", "open", "stalled"} && t.queue in queues
    && (step.host != "" ==> like(step.host, t.subject))
    && (forall since :: step.since != "" && lib.rfc3339(step.since) == Some(since) ==> t.created > since / SECOND)
    && (forall until :: step.until != "" && lib.rfc3339(step.until) == Some(until) ==> t.created < until / SECOND)
  }

  ghost function Fitting(lib: Library, like: (string, string) -> bool, queues: seq<string>, step: RouteStep): Ticket -> bool {
    (t: Ticket) => Fits(lib, like, queues, step, t)
  }

  /** The page and the total of a step's evidence, written out. */
  ghost predicate ShowsStep(lib: Library, tracker: Tracker, queues: seq<string>, step: RouteStep, e: Evidence) {
    var asked := Count(tracker.tickets, Fitting(lib, tracker.like, queues, step));
    && e.total == asked
    && |e.items| == Min(if step.limit <= 0 then 100 else step.limit, asked)
    && e.items <= Filter(tracker.tickets, Fitting(lib, tracker.like, queues, step))
    && (e.truncated <==> asked > |e.items|)
    && (|queues| > 20 ==> e.byQueue.None?)
    && (|queues| <= 20 ==> e.byQueue.Some?)
  }

  /** One step, from the checks to the evidence. */
  method Execute(lib: Library, tracker: Tracker, queues: seq<string>, step: RouteStep)
    returns (r: Result<Evidence, Execution.StepError>)
    requires queues != []
    ensures match Execution.CheckTickets(lib, step)
            case Some(error) => r == Err(error)
            case None =>
              r.Ok? && AnswersStep(lib, tracker, queues, step, r.value) && ShowsStep(lib, tracker, queues, step, r.value)
  {
    hide AnswersStep, ShowsStep, Reports;
    var refused := Execution.CheckTickets(lib, step);
    if refused.Some? {
      return Err(refused.value);
    }
    var e := Gather(tracker, SearchFor(lib, queues, step), PageLimit(step.limit));
    EvidenceAnswers(lib, tracker, queues, step, e);
    AnswerShowsStep(lib, tracker, queues, step, e);
    return Ok(e);
  }

  // ------------------------------------------------------------------- theorems

  function OwnerOf(t: Ticket): string { t.owner }

  function QueueOf(t: Ticket): string { t.queue }

  /** Narrowing a search to one owner counts that owner's share of what the search matches. */
  lemma OwnerCountIsShare(tracker: Tracker, s: Search, owner: string)
    requires s.owner == "" && owner != ""
    ensures OwnerCount(tracker, s)(owner) == At(Tally(Matching(tracker, s), OwnerOf), owner)
  {
    var under := (t: Ticket) => t.owner == owner;
    TallyCounts(Matching(tracker, s), OwnerOf, owner, under);
    CountFilter(tracker.tickets, Selector(tracker.like, s), under, Selector(tracker.like, s.(owner := owner)));
  }

  lemma QueueCountIsShare(tracker: Tracker, s: Search, queue: string)
    requires queue in s.queues
    ensures QueueCount(tracker, s)(queue) == At(Tally(Matching(tracker, s), QueueOf), queue)
  {
    var under := (t: Ticket) => t.queue == queue;
    TallyCounts(Matching(tracker, s), QueueOf, queue, under);
    CountFilter(tracker.tickets, Selector(tracker.like, s), under, Selector(tracker.like, s.(queues := [queue])));
  }

  /** The queue breakdown is always complete: it is the tally of the matching tickets by queue, and it
      sums to the total, even if the allowlist repeats a queue. */
  lemma QueueBreakdownIsComplete(tracker: Tracker, s: Search)
    requires s.queues != []
    ensures Census(s.queues, QueueCount(tracker, s)) == Tally(Matching(tracker, s), QueueOf)
    ensures Sum(Census(s.queues, QueueCount(tracker, s))) == TotalOf(tracker, s)
  {
    var matching := Matching(tracker, s);
    var named := (t: Ticket) => t.queue in s.queues;
    forall q | q in s.queues
      ensures QueueCount(tracker, s)(q) == At(Tally(matching, QueueOf), q)
    {
      QueueCountIsShare(tracker, s, q);
    }
    CensusIsTally(matching, QueueOf, s.queues, QueueCount(tracker, s), named);
    FilterAll(matching, named);
  }

  lemma {:induction false} FilterAll<T(!new)>(xs: seq<T>, p: T -> bool)
    requires forall x :: x in xs ==> p(x)
    ensures Filter(xs, p) == xs && Count(xs, p) == |xs|
  {
    if xs != [] {
      assert xs == [xs[0]] + xs[1..];
      FilterAll(xs[1..], p);
    }
  }

  /** Every matching ticket's owner is named with its true number of matching tickets. */
  ghost predicate OwnersComplete(tracker: Tracker, s: Search, byOwner: map<string, int>) {
    forall t :: t in Matching(tracker, s) ==>
      t.owner in byOwner && byOwner[t.owner] == At(Tally(Matching(tracker, s), OwnerOf), t.owner)
  }

  /** The owner breakdown of a page says nothing wrong: each owner named has its true count, and the
      sum is the number of matching tickets with a named owner. */
  lemma OwnerBreakdownIsTrue(tracker: Tracker, s: Search, owners: seq<string>, named: Ticket -> bool)
    requires s.owner == "" && "" !in owners
    requires forall t :: named(t) <==> t.owner in owners
    ensures var byOwner := Census(owners, OwnerCount(tracker, s));
      && Sum(byOwner) == Count(Matching(tracker, s), named)
      && (forall o :: o in byOwner ==> o in owners && byOwner[o] == At(Tally(Matching(tracker, s), OwnerOf), o))
      && (forall o :: o in owners && o !in byOwner ==> At(Tally(Matching(tracker, s), OwnerOf), o) == 0)
  {
    var matching := Matching(tracker, s);
    forall o | o in owners
      ensures OwnerCount(tracker, s)(o) == At(Tally(matching, OwnerOf), o)
    {
      OwnerCountIsShare(tracker, s, o);
    }
    CensusIsTally(matching, OwnerOf, owners, OwnerCount(tracker, s), named);
    forall o: string
      ensures var byOwner := Census(owners, OwnerCount(tracker, s));
        && (o in byOwner <==> o in owners && OwnerCount(tracker, s)(o) > 0)
        && (o in byOwner ==> byOwner[o] == OwnerCount(tracker, s)(o))
    {
      CensusHolds(owners, OwnerCount(tracker, s), o);
    }
    forall o | o in owners
      ensures OwnerCount(tracker, s)(o) >= 0
    {}
  }

  /** Exact or flagged: of every tracker, search and page size, an owner breakdown carries no warning
      exactly when every matching ticket's owner is in it with its true count; and when the list of
      owners was cut, the counts stated always fall short of the total. */
  lemma OwnerBreakdownIsExactOrFlagged(tracker: Tracker, s: Search, limit: nat)
    requires s.owner == ""
    requires FirstSeen(PageOf(tracker, s, limit)) != []
    ensures var owners := FirstSeen(PageOf(tracker, s, limit));
      var capped := |owners| > MAX_OWNER_CENSUS;
      var byOwner := Census(owners[..Min(|owners|, MAX_OWNER_CENSUS)], OwnerCount(tracker, s));
      && (OwnerWarning(capped, Sum(byOwner), TotalOf(tracker, s)) == [] <==> OwnersComplete(tracker, s, byOwner))
      && (capped ==> Sum(byOwner) < TotalOf(tracker, s))
      && Sum(byOwner) <= TotalOf(tracker, s)
  {
    hide Census, Tally, FirstSeen, Matching, Selector, Sum;
    TotalIsMatching(tracker, s);
    var matching, page := Matching(tracker, s), PageOf(tracker, s, limit);
    var owners := FirstSeen(page);
    var capped := |owners| > MAX_OWNER_CENSUS;
    var kept := owners[..Min(|owners|, MAX_OWNER_CENSUS)];
    var named := (t: Ticket) => t.owner in kept;
    var all := (t: Ticket) => true;
    assert forall o :: o in kept ==> o in owners;
    OwnerBreakdownIsTrue(tracker, s, kept, named);
    FilterAll(matching, all);
    CountImplies(matching, named, all);
    var byOwner := Census(kept, OwnerCount(tracker, s));
    if capped {
      var dropped := owners[MAX_OWNER_CENSUS];
      assert dropped in owners;
      var t :| t in page && t.owner == dropped;
      assert t in matching && !named(t);
    }
    if Sum(byOwner) == |matching| {
      forall t | t in matching
        ensures t.owner in byOwner
      {
        assert named(t);
        OwnerOccurs(matching, t);
      }
    }
  }

  lemma TotalIsMatching(tracker: Tracker, s: Search)
    ensures TotalOf(tracker, s) == |Matching(tracker, s)|
  {}

  lemma OwnerOccurs(tickets: seq<Ticket>, t: Ticket)
    requires t in tickets
    ensures At(Tally(tickets, OwnerOf), t.owner) > 0
  {
    var under := (u: Ticket) => u.owner == t.owner;
    TallyCounts(tickets, OwnerOf, t.owner, under);
    CountPositive(tickets, under);
  }

  lemma EvidenceAnswers(lib: Library, tracker: Tracker, queues: seq<string>, step: RouteStep, e: Evidence)
    requires queues != [] && Execution.CheckTickets(lib, step).None?
    requires Reports(e, tracker, SearchFor(lib, queues, step), PageLimit(step.limit))
    ensures AnswersStep(lib, tracker, queues, step, e)
  {
    hide Census, Tally, FirstSeen, Matching, Sum, WantedTickets, QueueCount, OwnerCount, TotalOf, BoundOf, OwnerWarning;
    var s, limit := SearchFor(lib, queues, step), PageLimit(step.limit);
    SearchFindsWanted(lib, tracker, queues, step);
    TotalIsMatching(tracker, s);
    QueueBreakdownIsComplete(tracker, s);
    var owners := FirstSeen(PageOf(tracker, s, limit));
    if owners != [] {
      OwnerEvidenceAnswers(tracker, s, limit);
    }
    OwnersSeen(e.items);
    var rest := if e.byOwner.Some? then OwnerWarning(|owners| > MAX_OWNER_CENSUS, Sum(e.byOwner.value), e.total) else [];
    QueueWarnings(queues, rest);
    assert forall w :: w in rest ==> OfOwners(w);
    assert (forall w :: w in rest ==> !OfOwners(w)) <==> rest == [] by {
      assert rest != [] ==> rest[0] in rest;
    }
  }

  lemma AnswerShowsStep(lib: Library, tracker: Tracker, queues: seq<string>, step: RouteStep, e: Evidence)
    requires Execution.CheckTickets(lib, step).None? && AnswersStep(lib, tracker, queues, step, e)
    ensures ShowsStep(lib, tracker, queues, step, e)
  {
    var fitting, wants := Fitting(lib, tracker.like, queues, step), Wants(lib, tracker.like, queues, step);
    forall t: Ticket
      ensures fitting(t) <==> wants(t)
    {
      FitsIsWanted(lib, tracker.like, queues, step, t);
    }
    FilterSame(tracker.tickets, fitting, wants);
    hide Fits, Wanted, Tally, Sum;
  }

  lemma FitsIsWanted(lib: Library, like: (string, string) -> bool, queues: seq<string>, step: RouteStep, t: Ticket)
    requires Execution.CheckTickets(lib, step).None?
    ensures Fits(lib, like, queues, step, t) <==> Wanted(lib, like, queues, step, t)
  {}

  /** A warning about queues is not one about owners. */
  lemma QueueWarnings(queues: seq<string>, rest: seq<Warning>)
    ensures var first := if |queues| > MAX_QUEUE_CENSUS then [QueuesNotComputed(|queues|)] else [];
      && (|queues| > MAX_QUEUE_CENSUS ==> QueuesNotComputed(|queues|) in first + rest)
      && ((forall w :: w in first + rest ==> !OfOwners(w)) <==> forall w :: w in rest ==> !OfOwners(w))
      && (forall n :: OwnersCapped(n) in first + rest <==> OwnersCapped(n) in rest)
  {
    var first := if |queues| > MAX_QUEUE_CENSUS then [QueuesNotComputed(|queues|)] else [];
    assert forall w :: w in first + rest <==> w in first || w in rest;
    assert |queues| > MAX_QUEUE_CENSUS ==> first[0] in first;
  }

  lemma OwnersSeen(page: seq<Ticket>)
    ensures FirstSeen(page) != [] <==> exists t :: t in page && t.owner != ""
  {
    if t :| t in page && t.owner != "" {
      assert t.owner in FirstSeen(page);
    }
    if FirstSeen(page) != [] {
      assert FirstSeen(page)[0] in FirstSeen(page);
    }
  }

  lemma OwnerEvidenceAnswers(tracker: Tracker, s: Search, limit: nat)
    requires s.owner == "" && FirstSeen(PageOf(tracker, s, limit)) != []
    ensures var owners := FirstSeen(PageOf(tracker, s, limit));
      var byOwner := Census(owners[..Min(|owners|, MAX_OWNER_CENSUS)], OwnerCount(tracker, s));
      var warnings := OwnerWarning(|owners| > MAX_OWNER_CENSUS, Sum(byOwner), TotalOf(tracker, s));
      && (forall o :: o in byOwner ==> byOwner[o] == At(Tally(Matching(tracker, s), OwnerOf), o))
      && (forall w :: w in warnings ==> OfOwners(w))
      && (warnings == [] <==> forall t :: t in Matching(tracker, s) ==> t.owner in byOwner)
      && (forall n :: OwnersCapped(n) in warnings ==> n == TotalOf(tracker, s) - Sum(byOwner) > 0)
  {
    hide Census, Tally, FirstSeen, Matching, Sum, TotalOf, OwnerCount;
    var owners := FirstSeen(PageOf(tracker, s, limit));
    var kept := owners[..Min(|owners|, MAX_OWNER_CENSUS)];
    assert forall o :: o in kept ==> o in owners;
    OwnerBreakdownIsTrue(tracker, s, kept, (t: Ticket) => t.owner in kept);
    OwnerBreakdownIsExactOrFlagged(tracker, s, limit);
  }
}
