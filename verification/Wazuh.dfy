/** Agent inventory evidence: which agents are fetched, the order of the list, what its cap keeps, and
    how far the counts over the fetched agents are counts over the whole fleet. */
module Wazuh {
  import opened Basics
  import opened Text
  import opened Clock
  import opened Types
  import Execution

  const MAX_LIMIT := 500

  const FLEET_ITEM_CAP := 60
  const MANAGER_AGENT_ID := "000"
  const ACTIVE := "active"

  datatype Agent = Agent(
    id: string,
    name: string,
    ip: string,
    status: string,
    version: string,
    lastKeepAlive: string,
    groups: seq<string>)

  /** The manager's inventory, in the order it answers; whom it takes to have been seen since an
      instant; and how many agents it returns when asked for no number. */
  datatype Manager = Manager(agents: seq<Agent>, seenSince: (Agent, Instant) -> bool, defaultLimit: nat)

  predicate Asked(lib: Library, m: Manager, step: RouteStep, agent: Agent) {
    && (step.action == AgentsStatus ==> agent.name == step.host)
    && (step.since != "" ==> lib.rfc3339(step.since).Some? && m.seenSince(agent, lib.rfc3339(step.since).value))
  }

  /** Everyone a step asks about. The manager reports how many they are, however many it returns. */
  function Population(lib: Library, m: Manager, step: RouteStep): seq<Agent> {
    Filter(m.agents, (agent: Agent) => Asked(lib, m, step, agent))
  }

  /** How many agents a step's fetch may return. Only an inventory asks for a number. */
  function FetchLimit(m: Manager, step: RouteStep): nat {
    if step.action != AgentsList then m.defaultLimit
    else if step.limit <= 0 || step.limit > MAX_LIMIT then MAX_LIMIT
    else step.limit
  }

  function Fetched(population: seq<Agent>, limit: nat): seq<Agent> {
    population[..Min(limit, |population|)]
  }

  function Missed(population: seq<Agent>, limit: nat): seq<Agent> {
    population[Min(limit, |population|)..]
  }

  datatype Item = Item(id: string, host: string, description: string, state: string, fields: map<string, string>)

  predicate IsCritical(agent: Agent, critical: set<string>) {
    exists i :: 0 <= i < |agent.groups| && agent.groups[i] in critical
  }

  function JoinComma(words: seq<string>): string {
    if words == [] then "" else if |words| == 1 then words[0] else words[0] + "," + JoinComma(words[1..])
  }

  function Fields(agent: Agent, critical: set<string>): map<string, string> {
    (if agent.ip != "" then map["ip" := agent.ip] else map[])
    + (if agent.lastKeepAlive != "" then map["last_keep_alive" := agent.lastKeepAlive] else map[])
    + (if agent.groups != [] then map["groups" := JoinComma(agent.groups)] else map[])
    + (if IsCritical(agent, critical) then map["critical" := "true"] else map[])
  }

  function ToItem(agent: Agent, critical: set<string>): Item {
    Item(agent.id, agent.name, TrimSpace("Wazuh agent " + agent.version), agent.status, Fields(agent, critical))
  }

  predicate MarkedCritical(item: Item) {
    "critical" in item.fields && item.fields["critical"] == "true"
  }

  function ItemRank(item: Item): int {
    var down := item.state != ACTIVE && item.state != "";
    if MarkedCritical(item) && down then 0
    else if down then 1
    else if MarkedCritical(item) then 2
    else 3
  }

  /** The order of the list: by rank, then by name. */
  predicate Before(a: Item, b: Item) {
    ItemRank(a) < ItemRank(b) || (ItemRank(a) == ItemRank(b) && !Less(b.host, a.host))
  }

  function ToItems(agents: seq<Agent>, critical: set<string>): seq<Item> {
    if agents == [] then [] else [ToItem(agents[0], critical)] + ToItems(agents[1..], critical)
  }

  method HasCriticalGroup(agent: Agent, critical: set<string>) returns (found: bool)
    ensures found <==> IsCritical(agent, critical)
  {
    for i := 0 to |agent.groups|
      invariant forall k :: 0 <= k < i ==> agent.groups[k] !in critical
    {
      if agent.groups[i] in critical {
        return true;
      }
    }
    return false;
  }

  method NormalizeAgent(agent: Agent, critical: set<string>) returns (item: Item)
    ensures item == ToItem(agent, critical)
  {
    var fields: map<string, string> := map[];
    if agent.ip != "" {
      fields := fields["ip" := agent.ip];
    }
    if agent.lastKeepAlive != "" {
      fields := fields["last_keep_alive" := agent.lastKeepAlive];
    }
    if agent.groups != [] {
      fields := fields["groups" := JoinComma(agent.groups)];
    }
    var inCritical := HasCriticalGroup(agent, critical);
    if inCritical {
      fields := fields["critical" := "true"];
    }
    assert fields == Fields(agent, critical);
    item := Item(agent.id, agent.name, TrimSpace("Wazuh agent " + agent.version), agent.status, fields);
  }

  method NormalizeAgents(agents: seq<Agent>, critical: set<string>) returns (items: seq<Item>)
    ensures items == Sort(ToItems(agents, critical), Before)
  {
    items := [];
    for i := 0 to |agents|
      invariant items + ToItems(agents[i..], critical) == ToItems(agents, critical)
    {
      hide ToItem;
      assert agents[i..][1..] == agents[i + 1..];
      var item := NormalizeAgent(agents[i], critical);
      items := items + [item];
    }
    assert items == ToItems(agents, critical);
    items := Sort(items, Before);
  }

  /** The list a plan gets back: capped for the inventory, whole for one host. */
  function Capped(items: seq<Item>, isList: bool): seq<Item> {
    if isList && |items| > FLEET_ITEM_CAP then items[..FLEET_ITEM_CAP] else items
  }

  lemma BeforeIsAnOrder()
    ensures TotalPreorder(Before)
  {
    forall a, b
      ensures Before(a, b) || Before(b, a)
    {
      LessTotal(a.host, b.host);
    }
    forall a, b, c | Before(a, b) && Before(b, c)
      ensures Before(a, c)
    {
      if ItemRank(a) == ItemRank(c) {
        LessTotal(a.host, b.host);
        LessTotal(b.host, c.host);
        LessTotal(a.host, c.host);
        if Less(c.host, a.host) {
          if a.host != b.host {
            LessTransitive(c.host, a.host, b.host);
          }
        }
      }
    }
  }

  /** A list in order is by tier, the agents out of contact first, and within a tier by name. */
  lemma ListIsByTierThenName(items: seq<Item>, i: nat, j: nat)
    requires Sorted(items, Before) && i < j < |items|
    ensures ItemRank(items[i]) < ItemRank(items[j])
      || (ItemRank(items[i]) == ItemRank(items[j]) && !Less(items[j].host, items[i].host))
  {
    assert Before(items[i], items[j]);
  }

  /** What the rank means for the agent behind an item. */
  lemma RankOfAgent(agent: Agent, critical: set<string>)
    ensures var down := agent.status != ACTIVE && agent.status != "";
      ItemRank(ToItem(agent, critical)) ==
        if down then (if IsCritical(agent, critical) then 0 else 1)
        else (if IsCritical(agent, critical) then 2 else 3)
  {
    assert "critical" != "ip" && "critical" != "last_keep_alive" && "critical" != "groups";
  }

  /** Agents of one tier and one name stay in the order the manager gave them. */
  lemma TiesKeepTheirOrder(agents: seq<Agent>, critical: set<string>, item: Item)
    ensures var tied := (other: Item) => ItemRank(other) == ItemRank(item) && other.host == item.host;
      Filter(Sort(ToItems(agents, critical), Before), tied) == Filter(ToItems(agents, critical), tied)
  {
    var tied := (other: Item) => ItemRank(other) == ItemRank(item) && other.host == item.host;
    LessTotal(item.host, item.host);
    SortIsStable(ToItems(agents, critical), Before, tied);
  }

  /** Of a population of any size, the items kept, the items the cap drops and the agents never
      fetched are together exactly the population; the kept ones are in order; and no dropped agent
      outranks a kept one. Nobody left out outranks a kept one exactly when nobody unfetched is before
      the last one kept, as when the whole population is fetched. */
  lemma CapDropsTheLeast(population: seq<Agent>, limit: nat, critical: set<string>)
    ensures var sorted := Sort(ToItems(Fetched(population, limit), critical), Before);
      var kept, missed := Capped(sorted, true), ToItems(Missed(population, limit), critical);
      && kept <= sorted && |kept| == Min(Min(limit, |population|), FLEET_ITEM_CAP)
      && multiset(kept) + multiset(sorted[|kept|..]) + multiset(missed) == multiset(ToItems(population, critical))
      && Sorted(kept, Before)
      && (forall i, j :: 0 <= i < |kept| <= j < |sorted| ==>
            Before(kept[i], sorted[j]) && ItemRank(kept[i]) <= ItemRank(sorted[j]))
      && (|population| <= limit ==> missed == [])
      && (kept != [] ==>
            ((forall i, u :: 0 <= i < |kept| && u in missed ==> Before(kept[i], u))
            <==> forall u :: u in missed ==> Before(kept[|kept| - 1], u)))
  {
    hide Sort, ToItems, Before, ItemRank, Capped;
    var fetched, missed := Fetched(population, limit), Missed(population, limit);
    var sorted := Sort(ToItems(fetched, critical), Before);
    BeforeIsAnOrder();
    CapKeepsTheFirst(fetched, critical);
    assert population == fetched + missed;
    ToItemsConcat(fetched, missed, critical);
    ToItemsConcat(missed, [], critical);
    if Capped(sorted, true) != [] {
      LastKeptDecides(Capped(sorted, true), ToItems(missed, critical));
    }
  }

  lemma CapKeepsTheFirst(agents: seq<Agent>, critical: set<string>)
    ensures var sorted := Sort(ToItems(agents, critical), Before);
      var kept := Capped(sorted, true);
      && kept <= sorted && |kept| == Min(|agents|, FLEET_ITEM_CAP)
      && multiset(kept) + multiset(sorted[|kept|..]) == multiset(ToItems(agents, critical))
      && Sorted(kept, Before)
      && (forall i, j :: 0 <= i < |kept| <= j < |sorted| ==>
            Before(kept[i], sorted[j]) && ItemRank(kept[i]) <= ItemRank(sorted[j]))
  {
    hide Before, ItemRank, Sort, ToItems;
    var sorted := Sort(ToItems(agents, critical), Before);
    BeforeIsAnOrder();
    SortSorts(ToItems(agents, critical), Before);
    ToItemsConcat(agents, [], critical);
    CapCuts(sorted);
    forall i, j | 0 <= i < |Capped(sorted, true)| <= j < |sorted|
      ensures ItemRank(sorted[i]) <= ItemRank(sorted[j])
    {
      BeforeRanks(sorted[i], sorted[j]);
    }
  }

  lemma BeforeRanks(a: Item, b: Item)
    requires Before(a, b)
    ensures ItemRank(a) <= ItemRank(b)
  {}

  lemma CapCuts(sorted: seq<Item>)
    requires Sorted(sorted, Before)
    ensures var kept := Capped(sorted, true);
      && kept <= sorted && |kept| == Min(|sorted|, FLEET_ITEM_CAP)
      && multiset(kept) + multiset(sorted[|kept|..]) == multiset(sorted)
      && Sorted(kept, Before)
      && forall i, j :: 0 <= i < |kept| <= j < |sorted| ==> kept[i] == sorted[i] && Before(kept[i], sorted[j])
  {
    hide Before;
    var kept := Capped(sorted, true);
    assert sorted == kept + sorted[|kept|..];
  }

  lemma LastKeptDecides(kept: seq<Item>, others: seq<Item>)
    requires TotalPreorder(Before) && Sorted(kept, Before) && kept != []
    ensures (forall i, u :: 0 <= i < |kept| && u in others ==> Before(kept[i], u))
      <==> forall u :: u in others ==> Before(kept[|kept| - 1], u)
  {
    hide Before;
    var last := |kept| - 1;
    forall i, u | 0 <= i < |kept| && u in others && Before(kept[last], u)
      ensures Before(kept[i], u)
    {
      assert i == last || Before(kept[i], kept[last]);
    }
  }

  lemma {:induction false} ToItemsConcat(xs: seq<Agent>, ys: seq<Agent>, critical: set<string>)
    ensures ToItems(xs + ys, critical) == ToItems(xs, critical) + ToItems(ys, critical)
    ensures |ToItems(xs, critical)| == |xs|
  {
    hide ToItem;
    if xs == [] {
      assert xs + ys == ys;
    } else {
      ToItemsConcat(xs[1..], ys, critical);
      assert (xs + ys)[0] == xs[0] && (xs + ys)[1..] == xs[1..] + ys;
      var first := [ToItem(xs[0], critical)];
      assert ToItems(xs + ys, critical) == first + (ToItems(xs[1..], critical) + ToItems(ys, critical));
    }
  }

  // ------------------------------------------------------------------- summary

  const TOTAL := "total"
  const CONFIGURED := "critical_groups_configured"
  const CRITICAL_TOTAL := "critical_total"
  const CRITICAL_DISCONNECTED := "critical_disconnected"
  const CRITICAL_ := "critical_"

  function StateOf(agent: Agent): string {
    if agent.status == "" then "unknown" else agent.status
  }

  predicate InFleet(agent: Agent) {
    agent.id != MANAGER_AGENT_ID
  }

  /** The agents a dashboard counts: all but the manager's own record. */
  function Fleet(agents: seq<Agent>): seq<Agent> {
    Filter(agents, InFleet)
  }

  predicate CriticalIn(critical: set<string>, a: Agent) {
    critical != {} && IsCritical(a, critical)
  }

  /** How often one agent's record increments a key of the summary. */
  function Adds(critical: set<string>, a: Agent, k: string): int {
    if !InFleet(a) then 0
    else
      (if StateOf(a) == k then 1 else 0)
      + (if k == TOTAL then 1 else 0)
      + (if CriticalIn(critical, a) && k == CRITICAL_TOTAL then 1 else 0)
      + (if CriticalIn(critical, a) && StateOf(a) != ACTIVE && CRITICAL_ + StateOf(a) == k then 1 else 0)
  }

  function Added(critical: set<string>, agents: seq<Agent>, k: string): int {
    if agents == [] then 0 else Added(critical, agents[..|agents| - 1], k) + Adds(critical, agents[|agents| - 1], k)
  }

  function Initial(critical: set<string>): map<string, int> {
    map[TOTAL := 0, CONFIGURED := |critical|]
    + if critical != {} then map[CRITICAL_TOTAL := 0, CRITICAL_DISCONNECTED := 0] else map[]
  }

  /** Every key of the summary, those that name several things included, holds its initial value plus
      what each agent adds to it. */
  method SummarizeAgents(agents: seq<Agent>, critical: set<string>) returns (summary: map<string, int>)
    ensures forall k :: At(summary, k) == At(Initial(critical), k) + Added(critical, agents, k)
    ensures forall k :: k in summary <==> k in Initial(critical) || Added(critical, agents, k) > 0
  {
    summary := Initial(critical);
    for i := 0 to |agents|
      invariant forall k :: At(summary, k) == At(Initial(critical), k) + Added(critical, agents[..i], k)
      invariant forall k :: k in summary <==> k in Initial(critical) || Added(critical, agents[..i], k) > 0
      invariant forall k :: Added(critical, agents[..i], k) >= 0
    {
      assert agents[..i + 1][..i] == agents[..i];
      summary := AddAgent(summary, critical, agents[i]);
      assert forall k :: Added(critical, agents[..i + 1], k) == Added(critical, agents[..i], k) + Adds(critical, agents[i], k);
    }
    assert agents[..|agents|] == agents;
  }

  method AddAgent(before: map<string, int>, critical: set<string>, agent: Agent) returns (summary: map<string, int>)
    ensures forall k :: At(summary, k) == At(before, k) + Adds(critical, agent, k)
    ensures forall k :: k in summary <==> k in before || Adds(critical, agent, k) > 0
  {
    hide At, Bump, IsCritical;
    summary := before;
    if agent.id == MANAGER_AGENT_ID {
      return;
    }
    var state := agent.status;
    if state == "" {
      state := "unknown";
    }
    BumpEffect(summary, state);
    summary := Bump(summary, state);
    BumpEffect(summary, TOTAL);
    summary := Bump(summary, TOTAL);
    var critical? := HasCriticalGroup(agent, critical);
    if |critical| > 0 && critical? {
      BumpEffect(summary, CRITICAL_TOTAL);
      summary := Bump(summary, CRITICAL_TOTAL);
      if state != ACTIVE {
        BumpEffect(summary, CRITICAL_ + state);
        summary := Bump(summary, CRITICAL_ + state);
      }
    }
  }

  lemma BumpEffect(before: map<string, int>, key: string)
    ensures forall k :: At(Bump(before, key), k) == At(before, k) + if k == key then 1 else 0
    ensures forall k :: k in Bump(before, key) <==> k in before || k == key
  {}

  function InState(state: string): Agent -> bool {
    (a: Agent) => InFleet(a) && StateOf(a) == state
  }

  function CriticalAgent(critical: set<string>): Agent -> bool {
    (a: Agent) => InFleet(a) && CriticalIn(critical, a)
  }

  function CriticalInState(critical: set<string>, state: string): Agent -> bool {
    (a: Agent) => InFleet(a) && CriticalIn(critical, a) && StateOf(a) == state
  }

  /** Critical agents out of contact whose state is counted under this key. */
  function CriticalUnder(critical: set<string>, k: string): Agent -> bool {
    (a: Agent) => InFleet(a) && CriticalIn(critical, a) && StateOf(a) != ACTIVE && CRITICAL_ + StateOf(a) == k
  }

  /** The increments in closed form: each reason to touch a key, counted over the fleet. */
  lemma {:induction false} AddedCounts(critical: set<string>, agents: seq<Agent>, k: string)
    ensures Added(critical, agents, k) ==
      Count(agents, InState(k))
      + (if k == TOTAL then Count(agents, InFleet) else 0)
      + (if k == CRITICAL_TOTAL then Count(agents, CriticalAgent(critical)) else 0)
      + Count(agents, CriticalUnder(critical, k))
  {
    if agents != [] {
      var init, last := agents[..|agents| - 1], agents[|agents| - 1];
      AddedCounts(critical, init, k);
      assert agents == init + [last];
      CountSnoc(init, last, InState(k));
      CountSnoc(init, last, InFleet);
      CountSnoc(init, last, CriticalAgent(critical));
      CountSnoc(init, last, CriticalUnder(critical, k));
    }
  }

  /** A connection state that shares no key with the summary's own. */
  predicate PlainState(state: string) {
    state != TOTAL && state != "groups_configured" && !(CRITICAL_ <= state)
  }

  lemma CriticalKeys(a: string, b: string)
    ensures CRITICAL_ + a == CRITICAL_ + b <==> a == b
    ensures CRITICAL_ <= CRITICAL_ + a && CRITICAL_ + a != TOTAL
    ensures CRITICAL_ + "total" == CRITICAL_TOTAL && CRITICAL_ + "groups_configured" == CONFIGURED
    ensures CRITICAL_ <= CRITICAL_TOTAL && CRITICAL_ <= CONFIGURED && !(CRITICAL_ <= TOTAL)
  {
    assert (CRITICAL_ + a)[9..] == a && (CRITICAL_ + b)[9..] == b;
    assert (CRITICAL_ + a)[0] == 'c' && TOTAL[0] == 't';
  }

  /** What the summary holds under a key. */
  function Stated(critical: set<string>, agents: seq<Agent>, k: string): int {
    At(Initial(critical), k) + Added(critical, agents, k)
  }

  predicate PlainFleet(agents: seq<Agent>) {
    forall a :: a in agents && InFleet(a) ==> PlainState(StateOf(a))
  }

  lemma NoneCounted(agents: seq<Agent>, p: Agent -> bool)
    requires forall a :: a in agents ==> !p(a)
    ensures Count(agents, p) == 0
  {
    CountPositive(agents, p);
  }

  lemma CountSame(agents: seq<Agent>, p: Agent -> bool, q: Agent -> bool)
    requires forall a :: a in agents ==> (p(a) <==> q(a))
    ensures Count(agents, p) == Count(agents, q)
  {
    CountImplies(agents, p, q);
  }

  // -------------------------------------------------- the summary of what was fetched

  lemma StatedTotal(critical: set<string>, agents: seq<Agent>)
    ensures Stated(critical, agents, TOTAL) == |Fleet(agents)| + Count(agents, InState(TOTAL))
  {
    AddedCounts(critical, agents, TOTAL);
    TotalIsNoOtherKey();
    forall a | a in agents
      ensures !CriticalUnder(critical, TOTAL)(a)
    {
      CriticalKeys(StateOf(a), "");
    }
    hide StateOf, CriticalUnder, InState, CriticalAgent, Added;
    NoneCounted(agents, CriticalUnder(critical, TOTAL));
  }

  lemma TotalIsNoOtherKey()
    ensures TOTAL != CRITICAL_TOTAL && TOTAL != CONFIGURED && TOTAL != CRITICAL_DISCONNECTED
  {
    assert TOTAL[0] == 't' && CRITICAL_TOTAL[0] == CONFIGURED[0] == CRITICAL_DISCONNECTED[0] == 'c';
  }

  /** A plain state names none of the summary's own keys. */
  lemma PlainIsNoKey(state: string, other: string)
    requires PlainState(state)
    ensures state != TOTAL && state != CONFIGURED && state != CRITICAL_TOTAL && state != CRITICAL_DISCONNECTED
    ensures CRITICAL_ + other != state
  {
    CriticalKeys(other, "");
    CriticalKeys("disconnected", "");
    DisconnectedKey();
  }

  lemma StatedState(critical: set<string>, agents: seq<Agent>, state: string)
    requires PlainFleet(agents) && PlainState(state)
    ensures Stated(critical, agents, state) == Count(agents, InState(state))
  {
    AddedCounts(critical, agents, state);
    PlainIsNoKey(state, "");
    forall a | a in agents
      ensures !CriticalUnder(critical, state)(a)
    {
      PlainIsNoKey(state, StateOf(a));
    }
    hide StateOf, CriticalUnder, InState, CriticalAgent, Added, PlainState, PlainFleet;
    NoneCounted(agents, CriticalUnder(critical, state));
  }

  lemma StatedCritical(critical: set<string>, agents: seq<Agent>, state: string)
    requires critical != {} && PlainFleet(agents) && PlainState(state) && state != ACTIVE
    ensures Stated(critical, agents, CRITICAL_TOTAL) == Count(agents, CriticalAgent(critical))
    ensures Stated(critical, agents, CRITICAL_ + state) == Count(agents, CriticalInState(critical, state))
  {
    StatedCriticalTotal(critical, agents);
    StatedCriticalState(critical, agents, state);
  }

  lemma StatedCriticalTotal(critical: set<string>, agents: seq<Agent>)
    requires critical != {} && PlainFleet(agents)
    ensures Stated(critical, agents, CRITICAL_TOTAL) == Count(agents, CriticalAgent(critical))
  {
    AddedCounts(critical, agents, CRITICAL_TOTAL);
    TotalIsNoOtherKey();
    assert At(Initial(critical), CRITICAL_TOTAL) == 0;
    hide StateOf, PlainState, CriticalAgent, Added, Initial;
    forall a | a in agents
      ensures !InState(CRITICAL_TOTAL)(a) && !CriticalUnder(critical, CRITICAL_TOTAL)(a)
    {
      if InFleet(a) {
        PlainIsNotCriticalTotal(StateOf(a));
      }
    }
    hide InState, CriticalUnder, PlainFleet;
    NoneCounted(agents, InState(CRITICAL_TOTAL));
    NoneCounted(agents, CriticalUnder(critical, CRITICAL_TOTAL));
  }

  lemma PlainIsNotCriticalTotal(state: string)
    requires PlainState(state)
    ensures state != CRITICAL_TOTAL && CRITICAL_ + state != CRITICAL_TOTAL
  {
    PlainIsNoKey(state, "");
    CriticalKeys(state, "total");
  }

  lemma StatedCriticalState(critical: set<string>, agents: seq<Agent>, state: string)
    requires critical != {} && PlainFleet(agents) && PlainState(state) && state != ACTIVE
    ensures Stated(critical, agents, CRITICAL_ + state) == Count(agents, CriticalInState(critical, state))
  {
    var key := CRITICAL_ + state;
    AddedCounts(critical, agents, key);
    CriticalKeys(state, "total");
    CriticalKeys(state, "groups_configured");
    forall a | a in agents
      ensures !InState(key)(a)
      ensures CriticalUnder(critical, key)(a) <==> CriticalInState(critical, state)(a)
    {
      CriticalKeys(StateOf(a), state);
      if InFleet(a) {
        PlainIsNoKey(StateOf(a), state);
      }
    }
    assert At(Initial(critical), key) == 0;
    assert key != TOTAL && key != CRITICAL_TOTAL;
    hide StateOf, CriticalUnder, InState, CriticalAgent, CriticalInState, Added, PlainState, PlainFleet, Initial;
    NoneCounted(agents, InState(key));
    CountSame(agents, CriticalUnder(critical, key), CriticalInState(critical, state));
  }

  lemma {:induction false} NothingAdded(critical: set<string>, agents: seq<Agent>, k: string)
    requires forall a :: a in agents ==> Adds(critical, a, k) == 0
    ensures Added(critical, agents, k) == 0
  {
    if agents != [] {
      NothingAdded(critical, agents[..|agents| - 1], k);
    }
  }

  /** Whether a count of critical agents is there says whether it was taken: the keys are present
      exactly when critical groups are configured, even at zero. */
  lemma CriticalKeysSayWhetherChecked(critical: set<string>, agents: seq<Agent>, k: string)
    requires PlainFleet(agents)
    requires k == CRITICAL_TOTAL || k == CRITICAL_DISCONNECTED
    ensures k in Initial(critical) || Added(critical, agents, k) > 0 <==> critical != {}
  {
    CriticalKeys("disconnected", "");
    assert CRITICAL_ + "disconnected" == CRITICAL_DISCONNECTED;
    assert k != TOTAL && k != CONFIGURED;
    if critical == {} {
      forall a | a in agents
        ensures Adds(critical, a, k) == 0
      {
        assert InFleet(a) ==> StateOf(a) != k;
      }
      NothingAdded(critical, agents, k);
    }
  }

  // ---------------------------------------------------- the summary and the whole fleet

  /** Nobody who counts was left unfetched. */
  predicate Complete(population: seq<Agent>, limit: nat) {
    forall a :: a in Missed(population, limit) ==> !InFleet(a)
  }

  lemma Splits(population: seq<Agent>, limit: nat, p: Agent -> bool)
    ensures population == Fetched(population, limit) + Missed(population, limit)
    ensures Count(population, p) == Count(Fetched(population, limit), p) + Count(Missed(population, limit), p)
  {
    assert population == Fetched(population, limit) + Missed(population, limit);
    CountConcat(Fetched(population, limit), Missed(population, limit), p);
  }

  lemma FleetCount(agents: seq<Agent>)
    ensures |Fleet(agents)| == Count(agents, InFleet)
    ensures |Fleet(agents)| == 0 <==> forall a :: a in agents ==> !InFleet(a)
  {
    CountPositive(agents, InFleet);
  }

  /** A fetch of the whole population is complete, and when every agent but the first the manager
      returns counts, as when its own record comes first, a fetch is complete only then. */
  lemma CompleteWhenItFits(population: seq<Agent>, limit: nat)
    ensures |population| <= limit ==> Complete(population, limit)
    ensures limit >= 1 && (forall i :: 1 <= i < |population| ==> InFleet(population[i])) ==>
      (Complete(population, limit) <==> |population| <= limit)
  {
    if |population| > limit {
      assert Missed(population, limit)[|population| - limit - 1] == population[|population| - 1];
      assert population[|population| - 1] in Missed(population, limit);
    }
  }

  /** The total is the whole fleet's exactly when as many fetched agents are in a state called
      "total", each counted twice, as agents were left unfetched. With no such state that is when
      nobody was left out; with everyone fetched, when there is no such state. */
  lemma TotalIsTheFleet(critical: set<string>, population: seq<Agent>, limit: nat)
    ensures var stated := Stated(critical, Fetched(population, limit), TOTAL);
      && stated == |Fleet(population)| - |Fleet(Missed(population, limit))| + Count(Fetched(population, limit), InState(TOTAL))
      && ((forall a :: a in population && InFleet(a) ==> StateOf(a) != TOTAL) ==>
            (stated == |Fleet(population)| <==> Complete(population, limit)))
      && (|population| <= limit ==>
            (stated == |Fleet(population)| <==> forall a :: a in population && InFleet(a) ==> StateOf(a) != TOTAL))
  {
    hide Stated, Fleet;
    var fetched, missed := Fetched(population, limit), Missed(population, limit);
    StatedTotal(critical, fetched);
    Splits(population, limit, InFleet);
    FleetCount(population);
    FleetCount(fetched);
    FleetCount(missed);
    CountPositive(fetched, InState(TOTAL));
  }

  /** With ordinary connection states, what is stated for a state is the number of agents in it less
      those left unfetched, so it is true exactly when nobody in that state was left out. */
  lemma StateCountsAreExact(critical: set<string>, population: seq<Agent>, limit: nat, state: string)
    requires PlainFleet(population) && PlainState(state)
    ensures var stated := Stated(critical, Fetched(population, limit), state);
      && stated == Count(population, InState(state)) - Count(Missed(population, limit), InState(state))
      && (stated == Count(population, InState(state)) <==> forall a :: a in Missed(population, limit) ==> !InState(state)(a))
  {
    Splits(population, limit, InState(state));
    StatedState(critical, Fetched(population, limit), state);
    CountPositive(Missed(population, limit), InState(state));
  }

  /** So are the counts for critical agents: those stated in all and under each state out of contact
      are the population's less the ones left unfetched; and the latter are never more than either
      whole. */
  lemma CriticalCountsAreExact(critical: set<string>, population: seq<Agent>, limit: nat, state: string)
    requires critical != {} && PlainFleet(population) && PlainState(state) && state != ACTIVE
    ensures var fetched, missed := Fetched(population, limit), Missed(population, limit);
      var total, down := Stated(critical, fetched, CRITICAL_TOTAL), Stated(critical, fetched, CRITICAL_ + state);
      && total == Count(population, CriticalAgent(critical)) - Count(missed, CriticalAgent(critical))
      && down == Count(population, CriticalInState(critical, state)) - Count(missed, CriticalInState(critical, state))
      && ((forall a :: a in missed ==> !CriticalInState(critical, state)(a))
            <==> down == Count(population, CriticalInState(critical, state)))
      && down <= total && down <= Stated(critical, fetched, state)
  {
    hide Stated, PlainState;
    var fetched, missed := Fetched(population, limit), Missed(population, limit);
    Splits(population, limit, CriticalAgent(critical));
    Splits(population, limit, CriticalInState(critical, state));
    assert PlainFleet(fetched);
    StatedCritical(critical, fetched, state);
    StatedState(critical, fetched, state);
    CountPositive(missed, CriticalInState(critical, state));
    CountImplies(fetched, CriticalInState(critical, state), CriticalAgent(critical));
    CountImplies(fetched, CriticalInState(critical, state), InState(state));
  }

  lemma FleetTally(agents: seq<Agent>, state: string)
    ensures At(Tally(Fleet(agents), StateOf), state) == Count(agents, InState(state))
    ensures state in Tally(Fleet(agents), StateOf) ==> exists a :: a in agents && InFleet(a) && StateOf(a) == state
  {
    var under := (a: Agent) => StateOf(a) == state;
    TallyCounts(Fleet(agents), StateOf, state, under);
    CountFilter(agents, InFleet, under, InState(state));
    CountPositive(agents, InState(state));
  }

  /** The counts stated for connection states sum to the stated total, and that is the whole fleet's
      exactly when nobody was left out. */
  lemma StatesSumToTotal(critical: set<string>, population: seq<Agent>, limit: nat)
    requires PlainFleet(population)
    ensures var fetched := Fetched(population, limit);
      var states := Tally(Fleet(fetched), StateOf);
      && (forall state :: state in states ==> states[state] == Stated(critical, fetched, state))
      && Sum(states) == Stated(critical, fetched, TOTAL)
      && (Sum(states) == |Fleet(population)| <==> Complete(population, limit))
  {
    hide Stated, PlainState, StateOf, Filter;
    var fetched := Fetched(population, limit);
    var states := Tally(Fleet(fetched), StateOf);
    TallySums(Fleet(fetched), StateOf);
    StatedTotal(critical, fetched);
    TotalIsTheFleet(critical, population, limit);
    forall state | state in states
      ensures states[state] == Stated(critical, fetched, state)
    {
      FleetTally(fetched, state);
      StatedState(critical, fetched, state);
    }
    forall a | a in population && InFleet(a)
      ensures StateOf(a) != TOTAL
    {
      PlainIsNotTotal(StateOf(a));
    }
    NoneCounted(fetched, InState(TOTAL));
  }

  lemma PlainIsNotTotal(state: string)
    requires PlainState(state)
    ensures state != TOTAL
  {}

  // ------------------------------------------------------------------ evidence

  datatype Evidence = Evidence(
    items: seq<Item>, total: int, truncated: bool, summary: map<string, int>, criticalNotEvaluated: bool)

  /** The evidence about a population: the summary is of the agents fetched, the list is cut after it
      is ordered, the total is what the manager reported, and a check that did not run is said not to
      have run. */
  ghost predicate Reports(e: Evidence, population: seq<Agent>, limit: nat, isList: bool, critical: set<string>) {
    var fetched := Fetched(population, limit);
    && e.items == Capped(Sort(ToItems(fetched, critical), Before), isList)
    && e.total == |population| && e.truncated == (|population| > |e.items|)
    && (forall k :: At(e.summary, k) == Stated(critical, fetched, k))
    && (forall k :: k in e.summary <==> k in Initial(critical) || Added(critical, fetched, k) > 0)
    && (e.criticalNotEvaluated <==> critical == {})
  }

  method Execute(lib: Library, m: Manager, step: RouteStep, critical: set<string>)
    returns (r: Result<Evidence, Execution.StepError>)
    ensures match Execution.CheckWazuh(lib, step)
            case Some(error) => r == Err(error)
            case None =>
              r.Ok? && Reports(r.value, Population(lib, m, step), FetchLimit(m, step), step.action == AgentsList, critical)
  {
    hide Sort, Added, Initial, Population;
    var refused := Execution.CheckWazuh(lib, step);
    if refused.Some? {
      return Err(refused.value);
    }
    var population := Population(lib, m, step);
    var fetched := Fetched(population, FetchLimit(m, step));
    var items := NormalizeAgents(fetched, critical);
    if step.action == AgentsList && |items| > FLEET_ITEM_CAP {
      items := items[..FLEET_ITEM_CAP];
    }
    var summary := SummarizeAgents(fetched, critical);
    return Ok(Evidence(items, |population|, |population| > |items|, summary, |critical| == 0));
  }

  /** What an item shows of its agent: its own fields, and each further one exactly when it has something
      to say. */
  lemma ItemShows(agent: Agent, critical: set<string>)
    ensures var item := ToItem(agent, critical);
      && item.id == agent.id && item.host == agent.name && item.state == agent.status
      && IsTrimmed("Wazuh agent " + agent.version, item.description, IsSpace)
      && (if agent.ip != "" then "ip" in item.fields && item.fields["ip"] == agent.ip else "ip" !in item.fields)
      && (if agent.lastKeepAlive != "" then
            "last_keep_alive" in item.fields && item.fields["last_keep_alive"] == agent.lastKeepAlive
          else "last_keep_alive" !in item.fields)
      && ("groups" in item.fields <==> agent.groups != [])
      && (|agent.groups| == 1 ==> item.fields["groups"] == agent.groups[0])
      && (|agent.groups| == 2 ==> item.fields["groups"] == agent.groups[0] + "," + agent.groups[1])
      && ("critical" in item.fields <==> exists g :: g in agent.groups && g in critical)
  {
    hide TrimSpace, IsTrimmed;
    TrimSpaceMeans("Wazuh agent " + agent.version, TrimSpace("Wazuh agent " + agent.version));
    FieldNames();
    if |agent.groups| == 2 {
      assert JoinComma(agent.groups[1..]) == agent.groups[1];
    }
    assert forall i :: 0 <= i < |agent.groups| ==> agent.groups[i] in agent.groups;
  }

  lemma FieldNames()
    ensures |"ip"| == 2 && |"last_keep_alive"| == 15 && |"groups"| == 6 && |"critical"| == 8
  {}

  lemma {:induction false} ItemsOf(agents: seq<Agent>, critical: set<string>, i: nat)
    requires i < |agents|
    ensures |ToItems(agents, critical)| == |agents| && ToItems(agents, critical)[i] == ToItem(agents[i], critical)
  {
    hide ToItem;
    ToItemsConcat(agents, [], critical);
    if i > 0 {
      ItemsOf(agents[1..], critical, i - 1);
    }
  }

  /** Every item kept is of an agent fetched. */
  lemma KeptAreFetched(agents: seq<Agent>, critical: set<string>, isList: bool, item: Item)
    requires item in Capped(Sort(ToItems(agents, critical), Before), isList)
    ensures exists a :: a in agents && item == ToItem(a, critical)
  {
    hide Sort, ToItems, ToItem, Before;
    var items := ToItems(agents, critical);
    BeforeIsAnOrder();
    SortSorts(items, Before);
    assert item in Sort(items, Before);
    assert item in multiset(Sort(items, Before)) && item in multiset(items);
    var i :| 0 <= i < |items| && items[i] == item;
    ToItemsConcat(agents, [], critical);
    ItemsOf(agents, critical, i);
  }

  /** The evidence of a status step names agents called by its host's name and no others, and reports how
      many there are. */
  lemma StatusIsOfItsHost(lib: Library, m: Manager, step: RouteStep, critical: set<string>, e: Evidence)
    requires step.action == AgentsStatus && step.since == ""
    requires Reports(e, Population(lib, m, step), FetchLimit(m, step), step.action == AgentsList, critical)
    ensures e.total == Count(m.agents, (a: Agent) => a.name == step.host)
    ensures |e.items| == Min(m.defaultLimit, e.total)
    ensures forall item :: item in e.items ==>
      item.host == step.host && exists a :: a in m.agents && a.name == step.host && a.id == item.id && a.status == item.state
  {
    hide Sort, ToItems, ToItem, Added, Stated, Initial;
    CountSame(m.agents, (a: Agent) => Asked(lib, m, step, a), (a: Agent) => a.name == step.host);
    var fetched := Fetched(Population(lib, m, step), FetchLimit(m, step));
    ToItemsConcat(fetched, [], critical);
    forall item | item in e.items
      ensures item.host == step.host
      ensures exists a :: a in m.agents && a.name == step.host && a.id == item.id && a.status == item.state
    {
      KeptAreFetched(fetched, critical, false, item);
      var a :| a in fetched && item == ToItem(a, critical);
      ItemShows(a, critical);
      assert a in Population(lib, m, step);
    }
  }

  /** The evidence of an inventory is of the first agents the manager lists, as many as asked for up to
      500, and reports how many it has. */
  lemma InventoryIsOfTheFirst(lib: Library, m: Manager, step: RouteStep, critical: set<string>, e: Evidence)
    requires step.action == AgentsList && step.since == ""
    requires Reports(e, Population(lib, m, step), FetchLimit(m, step), step.action == AgentsList, critical)
    ensures var fetched := m.agents[..Min(if 1 <= step.limit <= 500 then step.limit else 500, |m.agents|)];
      && e.total == |m.agents|
      && |e.items| == Min(60, |fetched|)
      && (forall item :: item in e.items ==> exists a :: a in fetched && a.id == item.id && a.name == item.host)
      && At(e.summary, "total") ==
        Count(fetched, (a: Agent) => a.id != "000") + Count(fetched, (a: Agent) => a.id != "000" && a.status == "total")
  {
    hide Sort, ToItems, ToItem, Added, Initial;
    EveryoneAsked(lib, m, step);
    var fetched := Fetched(m.agents, FetchLimit(m, step));
    ToItemsConcat(fetched, [], critical);
    StatedTotal(critical, fetched);
    FleetCount(fetched);
    CountSame(fetched, InFleet, (a: Agent) => a.id != "000");
    CountSame(fetched, InState("total"), (a: Agent) => a.id != "000" && a.status == "total");
    forall item | item in e.items
      ensures exists a :: a in fetched && a.id == item.id && a.name == item.host
    {
      KeptAreFetched(fetched, critical, true, item);
      var a :| a in fetched && item == ToItem(a, critical);
      ItemShows(a, critical);
    }
  }

  lemma EveryoneAsked(lib: Library, m: Manager, step: RouteStep)
    requires step.action == AgentsList && step.since == ""
    ensures Population(lib, m, step) == m.agents
  {
    EveryoneKept(m.agents, (a: Agent) => Asked(lib, m, step, a));
  }

  lemma {:induction false} EveryoneKept(agents: seq<Agent>, p: Agent -> bool)
    requires forall a :: p(a)
    ensures Filter(agents, p) == agents
  {
    if agents != [] {
      EveryoneKept(agents[1..], p);
    }
  }

  /** Reading the evidence of an inventory whose first agent is the manager's own record, if it is
      there at all. The total is the whole fleet's exactly when the number reported is within the limit
      of the fetch. That the list is marked truncated says something else: more than sixty agents. */
  lemma TruncationIsNotIncompleteness(
      e: Evidence, population: seq<Agent>, limit: nat, critical: set<string>)
    requires Reports(e, population, limit, true, critical) && limit >= 1
    requires PlainFleet(population) && forall i :: 1 <= i < |population| ==> InFleet(population[i])
    ensures At(e.summary, TOTAL) == |Fleet(population)| <==> e.total <= limit
    ensures e.truncated <==> e.total > Min(limit, FLEET_ITEM_CAP)
  {
    hide Stated, Sort, Added, Initial, Fleet, StateOf;
    ToItemsConcat(Fetched(population, limit), [], critical);
    CompleteWhenItFits(population, limit);
    forall a | a in population && InFleet(a)
      ensures StateOf(a) != TOTAL
    {
      PlainIsNotTotal(StateOf(a));
    }
    TotalIsTheFleet(critical, population, limit);
  }

  function Standby(n: nat): (agents: seq<Agent>)
    ensures |agents| == n
  {
    if n == 0 then [] else Standby(n - 1) + [Agent("001", "standby", "", ACTIVE, "", "", [])]
  }

  const VAULT := Agent("501", "vault", "", "disconnected", "", "", ["core"])

  lemma {:induction false} StandbyFacts(n: nat)
    ensures Count(Standby(n), CriticalInState({"core"}, "disconnected")) == 0
    ensures forall item :: item in ToItems(Standby(n), {"core"}) ==> item.host == "standby"
  {
    if n > 0 {
      StandbyFacts(n - 1);
      var one := Agent("001", "standby", "", ACTIVE, "", "", []);
      CountSnoc(Standby(n - 1), one, CriticalInState({"core"}, "disconnected"));
      ToItemsConcat(Standby(n - 1), [one], {"core"});
    }
  }

  /** So whatever the fetch limit, over sixty, take as many agents in contact and one critical agent out
      of contact that the manager lists last: with the limit of five hundred, a fleet of 501. That agent
      is neither named nor counted, and nothing warns of it. But for the number reported, the evidence
      is the same as for the others alone, whose counts are true, and both are marked truncated. */
  lemma UnfetchedCriticalAgentIsInvisible(limit: nat, e: Evidence, whole: Evidence)
    requires limit > FLEET_ITEM_CAP
    requires Reports(e, Standby(limit) + [VAULT], limit, true, {"core"})
    requires Reports(whole, Standby(limit), limit, true, {"core"})
    ensures Count(Standby(limit) + [VAULT], CriticalInState({"core"}, "disconnected")) == 1
    ensures At(e.summary, CRITICAL_DISCONNECTED) == Count(Standby(limit), CriticalInState({"core"}, "disconnected")) == 0
    ensures ToItem(VAULT, {"core"}) !in e.items
    ensures e.items == whole.items && (forall k :: At(e.summary, k) == At(whole.summary, k))
    ensures e.truncated && whole.truncated && !e.criticalNotEvaluated && !whole.criticalNotEvaluated
  {
    hide Sort, Standby, ToItems, Added, Stated, Initial, Capped, ToItem;
    var agents := Standby(limit);
    assert Fetched(agents, limit) == agents == Fetched(agents + [VAULT], limit);
    StandbyCounts(limit);
    CapKeepsTheFirst(agents, {"core"});
    KeptAreStandby(limit);
  }

  lemma StandbyCounts(n: nat)
    ensures Count(Standby(n) + [VAULT], CriticalInState({"core"}, "disconnected")) == 1
    ensures Stated({"core"}, Standby(n), CRITICAL_DISCONNECTED)
      == Count(Standby(n), CriticalInState({"core"}, "disconnected")) == 0
  {
    hide Standby, Stated, Count, CriticalInState, PlainState, PlainFleet;
    StandbyFacts(n);
    VaultIsCritical();
    CountSnoc(Standby(n), VAULT, CriticalInState({"core"}, "disconnected"));
    PlainStandby(n);
    StatedCritical({"core"}, Standby(n), "disconnected");
    DisconnectedKey();
  }

  lemma DisconnectedKey()
    ensures CRITICAL_ + "disconnected" == CRITICAL_DISCONNECTED
  {}

  lemma KeptAreStandby(n: nat)
    ensures ToItem(VAULT, {"core"}) !in Capped(Sort(ToItems(Standby(n), {"core"}), Before), true)
  {
    hide Sort, Standby, ToItems, Capped, Before;
    var items := Capped(Sort(ToItems(Standby(n), {"core"}), Before), true);
    StandbyFacts(n);
    CapKeepsTheFirst(Standby(n), {"core"});
    assert VAULT.name[0] != "standby"[0];
    forall item | item in items
      ensures item.host == "standby"
    {
      assert item in multiset(items) && item in multiset(ToItems(Standby(n), {"core"}));
    }
  }

  lemma VaultIsCritical()
    ensures CriticalInState({"core"}, "disconnected")(VAULT)
  {
    assert VAULT.groups[0] in {"core"};
  }

  lemma {:induction false} PlainStandby(n: nat)
    ensures PlainFleet(Standby(n)) && PlainState("disconnected") && "disconnected" != ACTIVE
  {
    if n > 0 {
      PlainStandby(n - 1);
    }
    assert CRITICAL_[0] != ACTIVE[0] && CRITICAL_[0] != "disconnected"[0] && TOTAL[0] != "disconnected"[0];
  }
}
