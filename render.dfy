/**
 * How the intelligence panel turns a list of GDELT articles into its content
 * region: an empty-state message, or one link card per article in input order.
 * The HTML text itself is not modelled; a card records the four strings the
 * template embeds and the sentiment class it carries.
 */
module IntelRender {
  import opened Wrappers

  /** An article as the fetch service returns it; `source` and `tone` may be absent. */
  datatype Article = Article(title: string, url: string, source: Option<string>, date: int, tone: Option<real>)

  /**
   * The helpers the panel calls but does not define: the HTML escaper, the URL
   * sanitizer, the domain extractor and the relative-date formatter. They are
   * kept uninterpreted: the model only says to what they are applied.
   */
  datatype Renderers = Renderers(
    escapeHtml: string -> string,
    sanitizeUrl: string -> string,
    extractDomain: string -> string,
    formatArticleDate: int -> string)

  /** The sentiment class of a card: `tone-negative`, `tone-positive` or none. */
  datatype ToneClass = Neutral | Negative | Positive

  /**
   * One article card: the link target, the three shown strings and the tone
   * class. `href` is the sanitized URL; `source`, `time` and `title` are the
   * escaped strings.
   */
  datatype Card = Card(href: string, source: string, time: string, title: string, tone: ToneClass)

  /** What renderArticles writes into the content region. */
  datatype Rendered = EmptyState(message: string) | Cards(cards: seq<Card>)

  const EmptyMessage := "No recent articles for this topic"

  /** JavaScript truthiness of an optional number: absent and 0 are falsy. */
  predicate ToneTruthy(tone: Option<real>) {
    tone.Some? && tone.value != 0.0
  }

  /** JavaScript truthiness of an optional string: absent and "" are falsy. */
  predicate SourceTruthy(source: Option<string>) {
    source.Some? && source.value != ""
  }

  /** The sentiment class of a tone: tested for truthiness first, then against -2 and 2. */
  function ToneClassOf(tone: Option<real>): (c: ToneClass)
    ensures c == Negative <==> tone.Some? && tone.value != 0.0 && tone.value < -2.0
    ensures c == Positive <==> tone.Some? && tone.value != 0.0 && tone.value > 2.0
    ensures c == Neutral <==> tone.None? || -2.0 <= tone.value <= 2.0
  {
    if ToneTruthy(tone) then
      if tone.value < -2.0 then Negative
      else if tone.value > 2.0 then Positive
      else Neutral
    else
      Neutral
  }

  /** The label shown as the article's source: `source || extractDomain(url)`. */
  function SourceLabel(h: Renderers, a: Article): (shown: string)
    ensures a.source.Some? && a.source.value != "" ==> shown == a.source.value
    ensures a.source.None? || a.source.value == "" ==> shown == h.extractDomain(a.url)
  {
    if SourceTruthy(a.source) then a.source.value else h.extractDomain(a.url)
  }

  /**
   * What a card for `a` must show: every embedded text escaped, the link target
   * sanitized, and the sentiment class of the article's tone.
   */
  ghost predicate ShowsArticle(h: Renderers, c: Card, a: Article) {
    && c.href == h.sanitizeUrl(a.url)
    && c.title == h.escapeHtml(a.title)
    && c.time == h.escapeHtml(h.formatArticleDate(a.date))
    && (SourceTruthy(a.source) ==> c.source == h.escapeHtml(a.source.value))
    && (!SourceTruthy(a.source) ==> c.source == h.escapeHtml(h.extractDomain(a.url)))
    && c.tone == ToneClassOf(a.tone)
  }

  /** renderArticle: one card for one article. */
  function RenderCard(h: Renderers, a: Article): (c: Card)
    ensures ShowsArticle(h, c, a)
  {
    Card(h.sanitizeUrl(a.url),
         h.escapeHtml(SourceLabel(h, a)),
         h.escapeHtml(h.formatArticleDate(a.date)),
         h.escapeHtml(a.title),
         ToneClassOf(a.tone))
  }

  /** `articles.map(renderArticle)`: one card per article, in input order. */
  function RenderCards(h: Renderers, articles: seq<Article>): (cards: seq<Card>)
    ensures |cards| == |articles|
    ensures forall i :: 0 <= i < |articles| ==> ShowsArticle(h, cards[i], articles[i])
  {
    if articles == [] then []
    else [RenderCard(h, articles[0])] + RenderCards(h, articles[1..])
  }

  /** renderArticles: the empty state for no articles, otherwise the card list. */
  function RenderArticles(h: Renderers, articles: seq<Article>): (r: Rendered)
    ensures r.EmptyState? <==> articles == []
    ensures r.EmptyState? ==> r.message == EmptyMessage
    ensures r.Cards? ==> |r.cards| == |articles|
    ensures r.Cards? ==> forall i :: 0 <= i < |articles| ==> ShowsArticle(h, r.cards[i], articles[i])
  {
    if |articles| == 0 then EmptyState(EmptyMessage) else Cards(RenderCards(h, articles))
  }
}
