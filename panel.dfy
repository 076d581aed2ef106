/**
 * The topic-selection and per-topic cache state machine of the live
 * intelligence panel.
 *
 * The panel keeps an active topic, a cache from topic id to the last fetched
 * intelligence, one tab per registry topic with an `active` mark, a count badge
 * and a content region. Selecting a topic either does nothing, shows a fresh
 * cache entry, or starts a load. A load is asynchronous: it is issued (the
 * loading indicator is shown and a fetch is outstanding) and later completed
 * with the fetch's outcome. On completion the result is stored under the topic
 * that is active at that moment, which need not be the topic the fetch was
 * issued for.
 *
 * PanelState and the functions over it are the specification; the class
 * GdeltIntelPanel holds the same state in fields and its methods are proved to
 * move that state exactly as the functions say.
 */
module IntelPanel {
  import opened Wrappers
  import opened IntelRender

  /** A registry entry; the panel reads only `id`, but the tab shows the rest. */
  datatype Topic = Topic(id: string, name: string, icon: string, description: string)

  /** One fetch result: the articles and when they were fetched (milliseconds). */
  datatype TopicIntelligence = TopicIntelligence(articles: seq<Article>, fetchedAt: int)

  /** What the fetch service delivers when an outstanding fetch settles. */
  datatype FetchOutcome = Success(data: TopicIntelligence) | Failure

  /** How a tab selection ended. */
  datatype Step = NoOp | RenderCached | Fetch

  /** The panel's content region: untouched, loading, an error, or rendered articles. */
  datatype View = Blank | Loading | Failed(message: string) | Shown(rendered: Rendered)

  /** Cache entries younger than five minutes are served without a fetch. */
  const FreshnessWindowMs: int := 5 * 60 * 1000

  const LoadErrorMessage := "Failed to load intelligence feed"

  /**
   * The panel's whole state. `tabs[i]` is whether the tab of `topics[i]` carries
   * the `active` class; `count` is None until the badge is first set;
   * `pending` lists the topics of the fetches that have been issued and have
   * not settled, in issue order.
   */
  datatype PanelState = PanelState(
    topics: seq<Topic>,
    active: Topic,
    cache: map<string, TopicIntelligence>,
    tabs: seq<bool>,
    count: Option<nat>,
    view: View,
    pending: seq<Topic>)

  /** The tab marking in which exactly the tabs whose topic id is `id` are active. */
  function TabMarks(topics: seq<Topic>, id: string): (marks: seq<bool>)
    ensures |marks| == |topics|
    ensures forall i :: 0 <= i < |topics| ==> (marks[i] <==> topics[i].id == id)
  {
    seq(|topics|, i requires 0 <= i < |topics| => topics[i].id == id)
  }

  /** The indices of the tabs marked active. */
  ghost function ActiveTabs(s: PanelState): set<int> {
    set i | 0 <= i < |s.tabs| && s.tabs[i]
  }

  function Ids(topics: seq<Topic>): set<string> {
    set t | t in topics :: t.id
  }

  /** The registry gives every topic its own id. */
  ghost predicate UniqueIds(topics: seq<Topic>) {
    forall i, j :: 0 <= i < j < |topics| ==> topics[i].id != topics[j].id
  }

  /**
   * What every reachable state satisfies: the active topic is a registry topic,
   * the tabs mark it, the cache is keyed by registry ids only and every
   * outstanding fetch is for a registry topic.
   */
  ghost predicate Inv(s: PanelState) {
    && |s.topics| > 0
    && s.active in s.topics
    && s.tabs == TabMarks(s.topics, s.active.id)
    && s.cache.Keys <= Ids(s.topics)
    && (forall p :: p in s.pending ==> p in s.topics)
  }

  /** The freshness test of a cache entry at time `now`. */
  predicate IsFresh(entry: TopicIntelligence, now: int) {
    now - entry.fetchedAt < FreshnessWindowMs
  }

  /** The state right after the tab strip is built, before the first load. */
  function Created(topics: seq<Topic>): PanelState
    requires |topics| > 0
  {
    PanelState(topics, topics[0], map[], TabMarks(topics, topics[0].id), None, Blank, [])
  }

  /** loadActiveTopic up to its await: show loading and issue a fetch for the active topic. */
  function IssueLoad(s: PanelState): (r: PanelState)
    ensures r.pending == s.pending + [s.active] && r.view == Loading
    ensures r.(view := s.view, pending := s.pending) == s
  {
    s.(view := Loading, pending := s.pending + [s.active])
  }

  /** The state after construction: tabs built, first topic active, its load issued. */
  function Initial(topics: seq<Topic>): (r: PanelState)
    requires |topics| > 0
    ensures r.topics == topics
    ensures r.active == topics[0] && r.cache == map[] && r.count == None
    ensures |r.tabs| == |topics|
    ensures forall i :: 0 <= i < |topics| ==> (r.tabs[i] <==> topics[i].id == topics[0].id)
    ensures r.pending == [topics[0]] && r.view == Loading
  {
    IssueLoad(Created(topics))
  }

  /**
   * selectTopic: nothing when the topic is already active; otherwise switch
   * the active topic and the tab marks, then show the cached articles when the
   * entry is younger than five minutes, or issue a load.
   */
  function SelectNext(h: Renderers, s: PanelState, topic: Topic, now: int): (r: (PanelState, Step))
    ensures topic.id == s.active.id ==> r == (s, NoOp)
    ensures topic.id != s.active.id ==>
      && r.0.active == topic
      && r.0.tabs == TabMarks(s.topics, topic.id)
      && r.0.topics == s.topics && r.0.cache == s.cache && r.0.count == s.count
    ensures r.1 == RenderCached <==>
      topic.id != s.active.id && topic.id in s.cache && now - s.cache[topic.id].fetchedAt < 300000
    ensures r.1 == Fetch <==>
      topic.id != s.active.id && (topic.id !in s.cache || now - s.cache[topic.id].fetchedAt >= 300000)
    ensures r.1 == RenderCached ==>
      r.0.pending == s.pending && r.0.view == Shown(RenderArticles(h, s.cache[topic.id].articles))
    ensures r.1 == Fetch ==> r.0.pending == s.pending + [topic] && r.0.view == Loading
  {
    if topic.id == s.active.id then
      (s, NoOp)
    else
      var switched := s.(active := topic, tabs := TabMarks(s.topics, topic.id));
      if topic.id in s.cache && IsFresh(s.cache[topic.id], now) then
        (switched.(view := Shown(RenderArticles(h, s.cache[topic.id].articles))), RenderCached)
      else
        (IssueLoad(switched), Fetch)
  }

  /** The outstanding fetches once the `i`-th has settled. */
  function Settle(pending: seq<Topic>, i: nat): (rest: seq<Topic>)
    requires i < |pending|
    ensures |rest| == |pending| - 1
    ensures forall j :: 0 <= j < i ==> rest[j] == pending[j]
    ensures forall j :: i <= j < |rest| ==> rest[j] == pending[j + 1]
  {
    pending[..i] + pending[i + 1..]
  }

  /**
   * loadActiveTopic after its await: the `i`-th outstanding fetch settles. A
   * success is stored under the id of the topic active NOW, rendered and
   * counted; a failure shows the error and touches neither cache nor count.
   */
  function LoadCompleted(h: Renderers, s: PanelState, i: nat, outcome: FetchOutcome): (r: PanelState)
    requires i < |s.pending|
    ensures r.topics == s.topics && r.active == s.active && r.tabs == s.tabs
    ensures r.pending == Settle(s.pending, i)
    ensures outcome.Success? ==>
      && r.cache.Keys == s.cache.Keys + {s.active.id}
      && r.cache[s.active.id] == outcome.data
      && (forall k :: k in s.cache && k != s.active.id ==> k in r.cache && r.cache[k] == s.cache[k])
      && r.count == Some(|outcome.data.articles|)
      && r.view == Shown(RenderArticles(h, outcome.data.articles))
    ensures outcome.Failure? ==>
      r.cache == s.cache && r.count == s.count && r.view == Failed(LoadErrorMessage)
  {
    match outcome
    case Success(data) =>
      s.(cache := s.cache[s.active.id := data],
         count := Some(|data.articles|),
         view := Shown(RenderArticles(h, data.articles)),
         pending := Settle(s.pending, i))
    case Failure =>
      s.(view := Failed(LoadErrorMessage), pending := Settle(s.pending, i))
  }

  /** refresh: a load of the active topic, whatever the cache holds. */
  function Refreshed(s: PanelState): (r: PanelState)
    ensures r.pending == s.pending + [s.active] && r.view == Loading
    ensures r.topics == s.topics && r.active == s.active && r.tabs == s.tabs
    ensures r.cache == s.cache && r.count == s.count
  {
    IssueLoad(s)
  }

  /** refreshAll: drop every cache entry, then load the active topic. */
  function RefreshedAll(s: PanelState): (r: PanelState)
    ensures r.cache == map[]
    ensures r.pending == s.pending + [s.active] && r.view == Loading
    ensures r.topics == s.topics
    ensures r.active == s.active && r.tabs == s.tabs && r.count == s.count
  {
    IssueLoad(s.(cache := map[]))
  }

  // ---------------------------------------------------------------------------
  // Properties of the specification

  /** At any reachable state exactly one tab is active: the active topic's. */
  lemma ExactlyOneTabActive(s: PanelState)
    requires Inv(s) && UniqueIds(s.topics)
    ensures exists k :: 0 <= k < |s.topics| && s.topics[k] == s.active && ActiveTabs(s) == {k}
    ensures |ActiveTabs(s)| == 1
  {
    var k :| 0 <= k < |s.topics| && s.topics[k] == s.active;
    forall i | i in ActiveTabs(s) ensures i == k {
      assert s.topics[i].id == s.topics[k].id;
    }
    assert k in ActiveTabs(s);
    assert ActiveTabs(s) == {k};
  }

  lemma InitialInv(topics: seq<Topic>)
    requires |topics| > 0
    ensures Inv(Initial(topics))
    ensures UniqueIds(topics) ==> |ActiveTabs(Initial(topics))| == 1
  {
    if UniqueIds(topics) {
      ExactlyOneTabActive(Initial(topics));
    }
  }

  lemma SelectPreservesInv(h: Renderers, s: PanelState, topic: Topic, now: int)
    requires Inv(s) && topic in s.topics
    ensures Inv(SelectNext(h, s, topic, now).0)
  {
  }

  lemma LoadCompletedPreservesInv(h: Renderers, s: PanelState, i: nat, outcome: FetchOutcome)
    requires Inv(s) && i < |s.pending|
    ensures Inv(LoadCompleted(h, s, i, outcome))
  {
    var r := LoadCompleted(h, s, i, outcome);
    forall p | p in r.pending ensures p in s.topics {
      var j :| 0 <= j < |r.pending| && r.pending[j] == p;
      if j < i { assert s.pending[j] == p; } else { assert s.pending[j + 1] == p; }
    }
    assert s.active.id in Ids(s.topics);
  }

  lemma RefreshAllPreservesInv(s: PanelState)
    requires Inv(s)
    ensures Inv(RefreshedAll(s)) && Inv(Refreshed(s))
  {
  }

  /** Five minutes old exactly is stale; one millisecond less is fresh. */
  lemma FreshnessBoundary(h: Renderers, s: PanelState, topic: Topic, entry: TopicIntelligence)
    requires topic.id != s.active.id && topic.id in s.cache && s.cache[topic.id] == entry
    ensures SelectNext(h, s, topic, entry.fetchedAt + 299999).1 == RenderCached
    ensures SelectNext(h, s, topic, entry.fetchedAt + 300000).1 == Fetch
  {
  }

  /** refresh loads even when the active topic's entry is fresh. */
  lemma RefreshIgnoresFreshness(s: PanelState, now: int)
    requires s.active.id in s.cache && IsFresh(s.cache[s.active.id], now)
    ensures Refreshed(s).pending == s.pending + [s.active]
    ensures Refreshed(s).view == Loading && Refreshed(s).cache == s.cache
  {
  }

  /**
   * After refreshAll and the settling of the fetch it issued, the cache holds
   * at most the active topic's entry: the new data on success, nothing on failure.
   */
  lemma RefreshAllLeavesOnlyActiveEntry(h: Renderers, s: PanelState, outcome: FetchOutcome)
    ensures var done := LoadCompleted(h, RefreshedAll(s), |s.pending|, outcome);
      && (outcome.Success? ==> done.cache == map[s.active.id := outcome.data])
      && (outcome.Failure? ==> done.cache == map[])
  {
  }

  /** After refreshAll, selecting any other topic fetches, however fresh it was before. */
  lemma RefreshAllForcesRefetch(h: Renderers, s: PanelState, topic: Topic, now: int)
    requires topic.id != s.active.id
    ensures SelectNext(h, RefreshedAll(s), topic, now).1 == Fetch
  {
  }

  /**
   * A fetch issued for topic A that settles after the user switched to topic B
   * is stored under B's id and rendered; A's entry stays as it was.
   */
  lemma LateResultKeyedByCurrentTopic(h: Renderers, s: PanelState, b: Topic, now: int, data: TopicIntelligence)
    requires b.id != s.active.id
    ensures
      var issued := IssueLoad(s);
      var switched := SelectNext(h, issued, b, now).0;
      var done := LoadCompleted(h, switched, |s.pending|, Success(data));
      && switched.pending[|s.pending|] == s.active
      && b.id in done.cache && done.cache[b.id] == data
      && (s.active.id in done.cache <==> s.active.id in s.cache)
      && (s.active.id in s.cache ==> done.cache[s.active.id] == s.cache[s.active.id])
      && done.view == Shown(RenderArticles(h, data.articles))
  {
    var issued := IssueLoad(s);
    var switched := SelectNext(h, issued, b, now).0;
    assert switched.pending[..|issued.pending|] == issued.pending;
  }

  // ---------------------------------------------------------------------------
  // The panel object

  class GdeltIntelPanel {
    /** The topic registry (INTEL_TOPICS), in tab order. */
    const topics: seq<Topic>
    const h: Renderers
    var activeTopic: Topic
    var topicData: map<string, TopicIntelligence>
    /** The `active` class of each tab button; `tabs[i]` is the tab of `topics[i]`. */
    var tabs: array<bool>
    var count: Option<nat>
    var view: View
    /** The topics of the fetches issued and not yet settled. */
    var pending: seq<Topic>

    ghost function State(): PanelState
      reads this, tabs
    {
      PanelState(topics, activeTopic, topicData, tabs[..], count, view, pending)
    }

    ghost predicate Valid()
      reads this, tabs
    {
      Inv(State())
    }

    /** Builds the tab strip and loads the first topic of the registry. */
    constructor (topics: seq<Topic>, h: Renderers)
      requires |topics| > 0
      ensures Valid() && fresh(tabs)
      ensures State() == Initial(topics)
    {
      this.topics := topics;
      this.h := h;
      activeTopic := topics[0];
      topicData := map[];
      tabs := new bool[0];
      count := None;
      view := Blank;
      pending := [];
      new;
      CreateTabs();
      LoadActiveTopic();
    }

    /** createTabs: one tab per registry topic, the active topic's tab marked. */
    method CreateTabs()
      modifies this`tabs
      ensures fresh(tabs)
      ensures tabs[..] == TabMarks(topics, activeTopic.id)
    {
      var marks := new bool[|topics|];
      var i := 0;
      while i < |topics|
        invariant 0 <= i <= |topics|
        invariant forall j :: 0 <= j < i ==> marks[j] == (topics[j].id == activeTopic.id)
      {
        marks[i] := topics[i].id == activeTopic.id;
        i := i + 1;
      }
      tabs := marks;
    }

    method SelectTopic(topic: Topic, now: int) returns (step: Step)
      requires Valid() && topic in topics
      modifies this`activeTopic, this`view, this`pending, tabs
      ensures Valid()
      ensures (State(), step) == SelectNext(h, old(State()), topic, now)
    {
      SelectPreservesInv(h, State(), topic, now);
      if topic.id == activeTopic.id {
        return NoOp;
      }
      activeTopic := topic;
      var i := 0;
      while i < tabs.Length
        modifies tabs
        invariant 0 <= i <= tabs.Length == |topics|
        invariant forall j :: 0 <= j < i ==> tabs[j] == (topics[j].id == topic.id)
      {
        tabs[i] := topics[i].id == topic.id;
        i := i + 1;
      }
      assert tabs[..] == TabMarks(topics, topic.id);
      if topic.id in topicData && IsFresh(topicData[topic.id], now) {
        view := Shown(RenderArticles(h, topicData[topic.id].articles));
        step := RenderCached;
      } else {
        LoadActiveTopic();
        step := Fetch;
      }
    }

    /** loadActiveTopic up to its await. */
    method LoadActiveTopic()
      requires Valid()
      modifies this`view, this`pending
      ensures Valid()
      ensures State() == IssueLoad(old(State()))
    {
      view := Loading;
      pending := pending + [activeTopic];
    }

    /** loadActiveTopic after its await: the `i`-th outstanding fetch settles with `outcome`. */
    method CompleteLoad(i: nat, outcome: FetchOutcome)
      requires Valid() && i < |pending|
      modifies this`topicData, this`count, this`view, this`pending
      ensures Valid()
      ensures State() == LoadCompleted(h, old(State()), i, outcome)
    {
      LoadCompletedPreservesInv(h, State(), i, outcome);
      pending := Settle(pending, i);
      match outcome
      case Success(data) =>
        topicData := topicData[activeTopic.id := data];
        view := Shown(RenderArticles(h, data.articles));
        count := Some(|data.articles|);
      case Failure =>
        view := Failed(LoadErrorMessage);
    }

    method Refresh()
      requires Valid()
      modifies this`view, this`pending
      ensures Valid()
      ensures State() == Refreshed(old(State()))
    {
      LoadActiveTopic();
    }

    method RefreshAll()
      requires Valid()
      modifies this`topicData, this`view, this`pending
      ensures Valid()
      ensures State() == RefreshedAll(old(State()))
    {
      topicData := map[];
      LoadActiveTopic();
    }
  }
}
