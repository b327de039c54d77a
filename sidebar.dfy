/** The React client's agent list: a search box that narrows the list, the
    highlighted active agent and each agent's unread badge. */
module Sidebar {
  import opened Util
  import opened Text

  /** An entry the list is given: key, display name, icon and optional unread count. */
  datatype SidebarAgent = SidebarAgent(key: string, name: string, icon: string, unreadCount: Option<int>)

  /** One button of the list as shown. */
  datatype AgentButton = AgentButton(key: string, name: string, icon: string, active: bool, badge: Option<int>)

  /** The search text as it is compared: trimmed and lower-cased. */
  function SearchTerm(search: string): string {
    Lower(Trim(search))
  }

  /** The agent's name or key, lower-cased, contains the term. */
  predicate Matches(a: SidebarAgent, term: string) {
    Contains(Lower(a.name), term) || Contains(Lower(a.key), term)
  }

  /** The agents the list shows for a search text. */
  function FilterAgents(agents: seq<SidebarAgent>, search: string): (r: seq<SidebarAgent>)
    ensures SearchTerm(search) == [] ==> r == agents
    ensures SearchTerm(search) != [] ==>
      forall a :: a in r <==> a in agents && Matches(a, SearchTerm(search))
    ensures SearchTerm(search) != [] ==>
      forall a :: multiset(r)[a] == (if Matches(a, SearchTerm(search)) then multiset(agents)[a] else 0)
    ensures IsSubsequence(r, agents)
  {
    var term := SearchTerm(search);
    if term == [] then
      SubsequenceRefl(agents);
      agents
    else
      var keep := (a: SidebarAgent) => Matches(a, term);
      FilterIsSubsequence(agents, keep);
      FilterCounts(agents, keep);
      Filter(agents, keep)
  }

  /** The button for one agent: active when it is the selected agent, with a
      badge when its unread count (missing read as zero) is positive. */
  function ButtonOf(a: SidebarAgent, activeAgent: string): (r: AgentButton)
    ensures r.key == a.key && r.name == a.name && r.icon == a.icon
    ensures r.active <==> a.key == activeAgent
    ensures r.badge.Some? <==> a.unreadCount.Some? && a.unreadCount.value > 0
    ensures r.badge.Some? ==> r.badge.value == a.unreadCount.value
  {
    var n := a.unreadCount.GetOr(0);
    AgentButton(a.key, a.name, a.icon, activeAgent == a.key, if n > 0 then Some(n) else None)
  }

  /** The list as shown for a search text and the selected agent. */
  function Render(agents: seq<SidebarAgent>, activeAgent: string, search: string): seq<AgentButton> {
    var shown := FilterAgents(agents, search);
    seq(|shown|, i requires 0 <= i < |shown| => ButtonOf(shown[i], activeAgent))
  }

  /** No two agents share a key. */
  predicate KeysDistinct(agents: seq<SidebarAgent>) {
    forall i, j :: 0 <= i < j < |agents| ==> agents[i].key != agents[j].key
  }

  /** A search text of white space alone shows every agent. */
  lemma BlankSearchShowsAll(agents: seq<SidebarAgent>, search: string)
    requires forall i :: 0 <= i < |search| ==> IsSpace(search[i])
    ensures FilterAgents(agents, search) == agents
  {
    TrimBlank(search);
  }

  /** The search ignores letter case: a lower-cased search text shows the same list. */
  lemma SearchIgnoresCase(agents: seq<SidebarAgent>, search: string)
    ensures FilterAgents(agents, Lower(search)) == FilterAgents(agents, search)
  {
    LowerTrim(search);
    LowerIdempotent(Trim(search));
  }

  /** Keeping some agents of a list with distinct keys keeps the keys distinct. */
  lemma {:induction false} FilterKeysDistinct(agents: seq<SidebarAgent>, p: SidebarAgent -> bool)
    requires KeysDistinct(agents)
    ensures KeysDistinct(Filter(agents, p))
  {
    if agents != [] {
      var rest := agents[1..];
      assert KeysDistinct(rest);
      FilterKeysDistinct(rest, p);
      if p(agents[0]) {
        var r := Filter(agents, p);
        assert r == [agents[0]] + Filter(rest, p);
        forall j | 0 < j < |r| ensures r[0].key != r[j].key {
          assert r[j] in rest;
        }
      }
    }
  }

  /** With distinct keys, at most one button is highlighted, whatever the search. */
  lemma AtMostOneActive(agents: seq<SidebarAgent>, activeAgent: string, search: string)
    requires KeysDistinct(agents)
    ensures var buttons := Render(agents, activeAgent, search);
      forall i, j :: 0 <= i < |buttons| && 0 <= j < |buttons| && buttons[i].active && buttons[j].active ==> i == j
  {
    var term := SearchTerm(search);
    if term != [] {
      FilterKeysDistinct(agents, (a: SidebarAgent) => Matches(a, term));
    }
    var shown := FilterAgents(agents, search);
    assert KeysDistinct(shown);
  }
}
