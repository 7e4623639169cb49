/**
 * The deterministic fallback draft (`generateBasicPost`): a title, an excerpt and an
 * HTML body built from a fixed template, the selected item, and the second to fourth
 * items of the news list.
 */
module Draft {
  import opened Text
  import opened News
  import Schedule

  datatype Draft = Draft(title: string, excerpt: string, content: string)

  /** The names every object literal inherits from `Object.prototype`. Looked up in the
      emoji table they give a truthy member instead of `undefined`, which the model does
      not represent. */
  const InheritedKeys: set<string> := {
    "constructor", "__proto__", "__defineGetter__", "__defineSetter__", "__lookupGetter__",
    "__lookupSetter__", "hasOwnProperty", "isPrototypeOf", "propertyIsEnumerable",
    "toLocaleString", "toString", "valueOf"}

  /** `categoryEmoji[category] || '📰'`: each configured category has an emoji of its own,
      and every other name (except the inherited ones) falls back to 📰. */
  function CategoryEmoji(category: string): (r: string)
    ensures r != ""
    ensures category !in InheritedKeys ==> (category in Schedule.Categories <==> r != "📰")
  {
    match category
    case "IT" => "💻"
    case "AI" => "🤖"
    case "교육" => "📚"
    case "경영" => "💼"
    case _ => "📰"
  }

  /** The closing paragraph that marks machine-written text. */
  const Disclaimer: string := "<p class=\"ai-disclaimer\">🤖 <em>이 포스팅은 AI가 자동으로 작성한 포스팅입니다.</em></p>"

  /** `allNews.slice(1, 4)`. */
  function RelatedNews(allNews: seq<NewsItem>): seq<NewsItem> {
    allNews[Min(1, |allNews|)..Min(4, |allNews|)]
  }

  /** One `<li>` of the related-news list. */
  function RelatedEntry(n: NewsItem): string {
    "<li><a href=\"" + n.link + "\" target=\"_blank\">" + n.title + "</a> <small>(" + n.source + ")</small></li>"
  }

  /** `.map(news => ...)` over the related items. */
  function RelatedEntries(allNews: seq<NewsItem>): seq<string> {
    var related := RelatedNews(allNews);
    seq(|related|, k requires 0 <= k < |related| => RelatedEntry(related[k]))
  }

  /** The paragraph that links the selected article. */
  function SourceLink(link: string): string {
    "<p>👉 <a href=\"" + link + "\" target=\"_blank\">원문 기사 보기</a></p>"
  }

  /** The template up to the source link. */
  function BasicIntro(selected: NewsItem, category: string): string {
    "<h2>" + CategoryEmoji(category) + " " + selected.title + "</h2>\n" +
    "\n" +
    "<p>오늘 " + category + " 분야에서 주목할 만한 소식이 있어 공유합니다.</p>\n" +
    "\n" +
    "<blockquote>\n" +
    "<strong>" + selected.source + "</strong>에서 보도한 내용에 따르면, 이 주제가 현재 업계에서 큰 관심을 받고 있습니다.\n" +
    "</blockquote>\n" +
    "\n" +
    "<h3>핵심 내용</h3>\n" +
    "<p>자세한 내용은 아래 원문 기사를 통해 확인하실 수 있습니다.</p>\n"
  }

  /** The related-news section. */
  function BasicRelated(allNews: seq<NewsItem>): string {
    "\n" +
    "\n" +
    "<h3>관련 소식</h3>\n" +
    "<p>이 주제와 관련된 다른 소식들도 함께 살펴보세요:</p>\n" +
    "<ul>\n" +
    Join(RelatedEntries(allNews), "\n") + "\n" +
    "</ul>\n"
  }

  /** The closing section, which the disclaimer follows. */
  function BasicOutro(category: string): string {
    "\n" +
    "<h3>마무리</h3>\n" +
    "<p>" + category + " 분야의 변화는 우리 일상과 밀접하게 연결되어 있습니다. 앞으로도 관련 소식을 지속적으로 전해드리겠습니다.</p>\n" +
    "\n" +
    "<p><em>이 포스트는 자동으로 생성되었습니다. 더 자세한 내용은 원문 링크를 참고해주세요.</em></p>\n" +
    "\n"
  }

  /** The fallback title: emoji, a space, the selected title. */
  function BasicTitle(selected: NewsItem, category: string): string {
    CategoryEmoji(category) + " " + selected.title
  }

  /** The fallback excerpt: `selectedNews.title.substring(0, 50)` after the category. */
  function BasicExcerpt(selected: NewsItem, category: string): string {
    category + " 분야 주요 소식: " + Utf16Prefix(selected.title, 50) + "..."
  }

  /** The fallback body without its closing disclaimer. */
  function BasicBody(selected: NewsItem, allNews: seq<NewsItem>, category: string): string {
    BasicIntro(selected, category) + SourceLink(selected.link) + BasicRelated(allNews) + BasicOutro(category)
  }

  /** The fallback body. */
  function BasicContent(selected: NewsItem, allNews: seq<NewsItem>, category: string): string {
    BasicBody(selected, allNews, category) + Disclaimer
  }

  /** `generateBasicPost`: the body always closes with the disclaimer paragraph, and the
      excerpt with an ellipsis. */
  function BasicPost(selected: NewsItem, allNews: seq<NewsItem>, category: string): (d: Draft)
    ensures EndsWith(d.content, Disclaimer)
    ensures EndsWith(d.excerpt, "...")
    ensures |d.title| > |selected.title|
  {
    EndsWithAppended(BasicBody(selected, allNews, category), Disclaimer);
    EndsWithAppended(category + " 분야 주요 소식: " + Utf16Prefix(selected.title, 50), "...");
    Draft(BasicTitle(selected, category), BasicExcerpt(selected, category), BasicContent(selected, allNews, category))
  }

  /** The emoji of each category of the rotation. */
  lemma CategoryEmojiTable(category: string)
    ensures category == "IT" ==> CategoryEmoji(category) == "💻"
    ensures category == "AI" ==> CategoryEmoji(category) == "🤖"
    ensures category == "교육" ==> CategoryEmoji(category) == "📚"
    ensures category == "경영" ==> CategoryEmoji(category) == "💼"
  {
  }

  /** The related list holds exactly min(3, max(0, |allNews| - 1)) entries: those of
      `allNews[1]`, `allNews[2]`, `allNews[3]` in that order, as far as they exist. */
  lemma RelatedEntriesAre(allNews: seq<NewsItem>)
    ensures |RelatedEntries(allNews)| == if |allNews| <= 1 then 0 else Min(3, |allNews| - 1)
    ensures forall k | 0 <= k < |RelatedEntries(allNews)| ::
              RelatedEntries(allNews)[k] == RelatedEntry(allNews[k + 1])
  {
  }

  /** The fallback title is the category emoji, a space and the selected title. */
  lemma BasicTitleShape(selected: NewsItem, allNews: seq<NewsItem>, category: string)
    ensures var t := BasicPost(selected, allNews, category).title;
            t[..|CategoryEmoji(category)| + 1] == CategoryEmoji(category) + " " &&
            t[|CategoryEmoji(category)| + 1..] == selected.title
  {
  }

  /** The fallback excerpt names the category, then gives the first 50 UTF-16 code units
      of the title (all of it when shorter) and an ellipsis; for a Hangul or ASCII title
      that is its first min(50, |title|) characters. */
  lemma BasicExcerptShape(selected: NewsItem, allNews: seq<NewsItem>, category: string)
    requires InBmp(selected.title)
    ensures BasicPost(selected, allNews, category).excerpt ==
            category + " 분야 주요 소식: " + selected.title[..Min(50, |selected.title|)] + "..."
  {
    assert BasicPost(selected, allNews, category).excerpt == BasicExcerpt(selected, category);
    BmpPrefix(selected.title, 50);
  }

  /** The fallback body is the template text followed by the disclaimer. */
  lemma BasicContentSplit(selected: NewsItem, allNews: seq<NewsItem>, category: string)
    ensures BasicPost(selected, allNews, category).content == BasicBody(selected, allNews, category) + Disclaimer
  {
  }

  /** The fallback body links the selected article, right after the introduction. */
  lemma BasicContentLinksSource(selected: NewsItem, allNews: seq<NewsItem>, category: string)
    ensures var c := BasicPost(selected, allNews, category).content;
            var at := |BasicIntro(selected, category)|;
            at + |SourceLink(selected.link)| <= |c| && c[at..at + |SourceLink(selected.link)|] == SourceLink(selected.link)
  {
    BasicContentSplit(selected, allNews, category);
    InfixAt(BasicIntro(selected, category), SourceLink(selected.link), BasicRelated(allNews), BasicOutro(category), Disclaimer);
  }
}
