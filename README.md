# Live intelligence panel: topic selection and cache

This project models the core of `GdeltIntelPanel`, the dashboard panel that shows a tabbed
news-intelligence feed. It has one tab per registry topic. It fetches articles for the
active topic, keeps the last result for each topic in a cache, and renders the articles as
link cards. The model covers two things:

- **The selection and cache state machine** (`panel.dfy`, module `IntelPanel`). `PanelState`
  holds the registry, the active topic, the cache (topic id to `{articles, fetchedAt}`), the
  `active` mark of each tab, the count badge, the content region and the outstanding
  fetches. Each operation is a function from state to state: `SelectNext`, `IssueLoad`,
  `LoadCompleted`, `Refreshed` and `RefreshedAll`. The class `GdeltIntelPanel` keeps the
  same state in fields that its methods update in place. The tab marks are an `array<bool>`
  that the methods rewrite in a loop. Each method is proved to change `State()` exactly as
  its function says. Each method except the constructor's helper `CreateTabs` is also proved
  to keep the invariant `Inv`.
- **The card rendering rules** (`render.dfy`, module `IntelRender`): the sentiment class of
  a tone, the source label, and the choice between the empty state and one card per article.

The load in the source is `async`, so the model splits it into two steps.
`LoadActiveTopic` is the part before the `await`: it shows the loading indicator and issues
a fetch for the active topic, which is appended to `pending`. `CompleteLoad(i, outcome)` is
the continuation: the `i`-th outstanding fetch settles with `Success(data)` or `Failure`.
As in the source, a successful result is stored under the id of the topic that is active
when the fetch settles, not the topic it was issued for (lemma
`LateResultKeyedByCurrentTopic`).

Four points where the code's behaviour is easy to misread:

- A fetch that settles after the user switched topics is stored under the switched-to
  topic's id and rendered. It is not cached under its own topic and held back.
- The source label falls back to the URL's domain when `source` is absent or the empty
  string. This is JavaScript `||`.
- The tone test is JavaScript truthiness, so a tone of 0 is neutral before any comparison.
- Showing a fresh cache entry does not update the count badge. It keeps the count of the
  last successful load.

The clock (`Date.now()`) is the `now` parameter, in milliseconds. The fetch service's
answer is the `FetchOutcome` handed to `CompleteLoad`. `escapeHtml`, `sanitizeUrl`,
`extractDomain` and `formatArticleDate` are uninterpreted functions carried in
`Renderers`. The topic registry is the constructor's `topics` argument.

## Model

| member | source | states |
|---|---|---|
| `IntelRender.ToneClassOf` | src/components/GdeltIntelPanel.ts:86 | negative iff the tone is present, non-zero and below -2; positive iff present, non-zero and above 2; neutral iff absent or within [-2, 2], so 0 is neutral |
| `IntelRender.SourceLabel` | src/components/GdeltIntelPanel.ts:84 | the label is `source` when it is present and non-empty, otherwise `extractDomain(url)` |
| `IntelRender.RenderCard` | src/components/GdeltIntelPanel.ts:83-97 | the card links to the sanitized URL, shows the escaped title, the escaped formatted date and the escaped source label (`source` when non-empty, else the URL's domain), and carries the tone class of the article |
| `IntelRender.RenderCards` | src/components/GdeltIntelPanel.ts:79-97 | one card per article, in input order; each card has the sanitized URL as its link, shows the escaped title, escaped source label and escaped formatted date, and carries the tone class of its article |
| `IntelRender.RenderArticles` | src/components/GdeltIntelPanel.ts:73-81 | the empty state with "No recent articles for this topic" exactly when there are no articles; otherwise exactly one card per article, in order, each showing its article |
| `IntelPanel.TabMarks` | src/components/GdeltIntelPanel.ts:47-49 | one mark per registry tab, and a tab is marked exactly when its topic id equals the selected id |
| `IntelPanel.IssueLoad` | src/components/GdeltIntelPanel.ts:59-63 | the loading state is shown and one fetch, for the active topic, is appended to the outstanding ones; nothing else changes |
| `IntelPanel.Initial` | src/components/GdeltIntelPanel.ts:14-22 | after construction the first registry topic is active, only tabs with its id are marked, the cache is empty, the count is unset and one fetch for the first topic is outstanding |
| `IntelPanel.SelectNext` | src/components/GdeltIntelPanel.ts:42-57 | the active topic gives a no-op with the state unchanged; any other topic becomes active with exactly its tabs marked and the cache and count untouched; the cached articles are rendered with no fetch iff the entry exists and `now - fetchedAt < 300000`; otherwise exactly one fetch for that topic is issued |
| `IntelPanel.LoadCompleted` | src/components/GdeltIntelPanel.ts:62-70 | on success the cache maps the completion-time active id to the data, every other entry is unchanged, the count is the number of articles and the articles are rendered; on failure the cache and count are unchanged and "Failed to load intelligence feed" is shown; the settled fetch leaves the outstanding list |
| `IntelPanel.Refreshed` | src/components/GdeltIntelPanel.ts:99-101 | a fetch for the active topic is issued and loading shown, whatever the cache holds; registry, active topic, tabs, cache and count unchanged |
| `IntelPanel.RefreshedAll` | src/components/GdeltIntelPanel.ts:103-106 | the cache is emptied and a fetch for the active topic is issued; active topic, tabs and count unchanged |
| `IntelPanel.ExactlyOneTabActive` | src/components/GdeltIntelPanel.ts:28-30 | in every state satisfying the invariant, with unique registry ids, exactly one tab is marked, and it is the active topic's |
| `IntelPanel.InitialInv` | src/components/GdeltIntelPanel.ts:14-30 | the constructed panel satisfies the invariant, and with unique ids only the first topic's tab is active |
| `IntelPanel.SelectPreservesInv` | src/components/GdeltIntelPanel.ts:42-57 | selecting a registry topic preserves the invariant: the active topic is in the registry, the tabs mark it, cache keys are registry ids, and outstanding fetches are for registry topics |
| `IntelPanel.LoadCompletedPreservesInv` | src/components/GdeltIntelPanel.ts:62-70 | settling any outstanding fetch preserves the invariant, so the cache is only ever keyed by registry ids |
| `IntelPanel.RefreshAllPreservesInv` | src/components/GdeltIntelPanel.ts:99-106 | refresh and refreshAll preserve the invariant |
| `IntelPanel.FreshnessBoundary` | src/components/GdeltIntelPanel.ts:52 | an entry 299999 ms old is served from the cache; one exactly 300000 ms old is stale and fetched |
| `IntelPanel.RefreshIgnoresFreshness` | src/components/GdeltIntelPanel.ts:99-101 | refresh issues a fetch for the active topic even when its cache entry is fresh, and leaves the cache as it is |
| `IntelPanel.RefreshAllLeavesOnlyActiveEntry` | src/components/GdeltIntelPanel.ts:103-106 | once the fetch issued by refreshAll settles, the cache holds only the active topic's new entry on success and nothing on failure |
| `IntelPanel.RefreshAllForcesRefetch` | src/components/GdeltIntelPanel.ts:104 | after refreshAll, selecting any topic other than the active one issues a fetch, however fresh its entry was before |
| `IntelPanel.LateResultKeyedByCurrentTopic` | src/components/GdeltIntelPanel.ts:63-65 | a fetch issued for topic A that settles after the user switched to topic B is stored under B's id and rendered; A's entry stays as it was |
| `IntelPanel.GdeltIntelPanel.constructor` | src/components/GdeltIntelPanel.ts:14-22 | the new panel's state is `Initial(topics)` and satisfies the invariant |
| `IntelPanel.GdeltIntelPanel.CreateTabs` | src/components/GdeltIntelPanel.ts:24-40 | a fresh tab array with one mark per registry topic; exactly the tabs with the active topic's id are marked |
| `IntelPanel.GdeltIntelPanel.SelectTopic` | src/components/GdeltIntelPanel.ts:42-57 | the new state and the returned step are those of `SelectNext`, and the invariant is kept |
| `IntelPanel.GdeltIntelPanel.LoadActiveTopic` | src/components/GdeltIntelPanel.ts:59-63 | the new state is `IssueLoad` of the old one |
| `IntelPanel.GdeltIntelPanel.CompleteLoad` | src/components/GdeltIntelPanel.ts:62-70 | the new state is `LoadCompleted` of the old one, and the invariant is kept |
| `IntelPanel.GdeltIntelPanel.Refresh` | src/components/GdeltIntelPanel.ts:99-101 | the new state is `Refreshed` of the old one: a load of the active topic |
| `IntelPanel.GdeltIntelPanel.RefreshAll` | src/components/GdeltIntelPanel.ts:103-106 | the new state is `RefreshedAll` of the old one: empty cache, load of the active topic |

## Left out

- The DOM is not modelled: element creation, `innerHTML`, `classList`, `insertBefore`, event listeners and the HTML text of tabs and cards. A tab is its `active` mark. A card is the four strings it embeds plus its tone class. Its `target="_blank" rel="noopener"` attributes and the `join('')` of the card HTML are not modelled.
- `escapeHtml`, `sanitizeUrl`, `extractDomain` and `formatArticleDate` live in files that are not part of this model. They stay uninterpreted, so no property about escaped output, such as "no raw `<script>` tag", is stated.
- The `Panel` base class is not part of this model. `showLoading`, `showError` and `setCount` are recorded as the `view` and `count` fields. The badge's value before the first `setCount` is `None`.
- `console.error` logging on a failed load.
- `escapeHtml`, `sanitizeUrl`, `extractDomain` and `formatArticleDate` are taken never to throw. The `catch` around the load also covers the cache write, the rendering and the count update. If rendering threw after the cache write, the new entry would stay cached, the count would not change and the error message would be shown. `LoadCompleted` does not model that state: its `Failure` is only a failed fetch, and it always leaves the cache unchanged.
- The fetch service is a network call. Its result is the `FetchOutcome` given to `CompleteLoad`, and the data is not tied to the topic the fetch was issued for.
- Async scheduling is reduced to issue and settle steps. Fetches may settle in any order. The promises returned by `refresh` and `refreshAll` are not modelled.
- `Date.now()` and `Date.getTime()` are integer milliseconds passed in.
- The tone is a real number. A `NaN` tone is falsy in JavaScript and so neutral, but `NaN` is not modelled.
- The topic registry (`INTEL_TOPICS`) is not part of this model. It is the constructor's argument, which must be non-empty, as the source's `INTEL_TOPICS[0]!` assumes. Unique ids are assumed only where exactly one active tab is claimed.
