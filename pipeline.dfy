/**
 * The orchestrator (`main`): guard, category and query, feed with one retry, scoring,
 * image, draft, then the post file and the manifest, in that order.
 *
 * The three clock readings of a run are inputs: the UTC date the guard compares with,
 * the local day of the year that picks the category, and the UTC date the post is filed
 * under (read again after the network calls).
 */
module Pipeline {
  import opened Wrappers
  import opened News
  import opened Scoring
  import opened Schedule
  import opened Draft
  import opened Reply
  import opened Store

  /** `CONFIG.defaultImage`. */
  const DefaultImage: string := "images/banner.png"

  /** `imageUrl || CONFIG.defaultImage`: a missing or empty URL gives the bundled banner. */
  function PostImage(imageUrl: Option<string>): (r: string)
    ensures imageUrl.Some? && imageUrl.value != "" ==> r == imageUrl.value
    ensures imageUrl.None? || imageUrl.value == "" ==> r == DefaultImage
    ensures r != ""
  {
    if imageUrl.Some? && imageUrl.value != "" then imageUrl.value else DefaultImage
  }

  /** `daily-{dateStr}.json`. */
  function PostFileName(dateStr: string): (r: string)
    ensures Text.EndsWith(r, ".json")
  {
    var id := "daily-" + dateStr;
    Text.EndsWithAppended(id, ".json");
    id + ".json"
  }

  /** How a run ended, with the feed queries it issued, in order. `main` itself returns
      nothing in every case and only logs which one happened. */
  datatype RunResult = AlreadyPosted | NoNews(queries: seq<string>) | Published(post: Post, queries: seq<string>)

  /** The news list `main` works on: the first fetch, or the retry's when the first is empty.
      `feed(k, q)` is the response to the `k`-th request of the run, for query `q`: two
      requests for the same query may be answered differently. */
  function CollectedNews(feed: (nat, string) -> FeedResponse, category: string, query: string): (news: seq<NewsItem>)
    requires category in Categories
    ensures news == [] <==> FeedItems(feed(0, query)) == [] && FeedItems(feed(1, FallbackQuery(category))) == []
  {
    var first := FeedItems(feed(0, query));
    if first != [] then first else FeedItems(feed(1, FallbackQuery(category)))
  }

  /** A retry of the very query that found nothing can still succeed: when the random draw
      picks the category's first query, a failed first request and a successful second one
      give the second request's news. */
  lemma RetryOfSameQueryCanSucceed(feed: (nat, string) -> FeedResponse, category: string)
    requires category in Categories
    requires FeedItems(feed(0, FallbackQuery(category))) == []
    ensures RandomQuery(category, 0.0) == FallbackQuery(category)
    ensures CollectedNews(feed, category, RandomQuery(category, 0.0)) == FeedItems(feed(1, FallbackQuery(category)))
  {
    assert Draw(0.0, |QueriesFor(category)|) == 0;
  }

  /** The last two steps of `main`: the post file, then the manifest. */
  method Persist(store: PostStore, filename: string, post: Post)
    requires Text.EndsWith(filename, ".json") && post.autoGenerated
    modifies store
    ensures store.dir == Upsert(old(store.dir), filename, post)
    ensures store.index == Some(AddToIndex(old(store.index).GetOr([]), filename))
    ensures store.writes == old(store.writes) + [filename, IndexFileName]
    ensures PostedToday(store.dir, post.date)
  {
    store.SavePost(filename, post);
    UpsertPostedToday(old(store.dir), filename, post);
    store.UpdatePostIndex(filename);
  }

  /** `main`, with the clock, `Math.random()`, the network and `JSON.parse` given. */
  method RunDaily(store: PostStore, guardDate: string, dayOfYear: nat, postDate: string, random: real,
                  feed: (nat, string) -> FeedResponse, imageUrl: Option<string>,
                  reply: ServiceReply, parse: string -> Option<ParsedReply>)
    returns (result: RunResult)
    requires 0.0 <= random < 1.0
    modifies store
    ensures result.AlreadyPosted? <==> old(PostedToday(store.dir, guardDate))
    // Nothing is written unless a post is published.
    ensures !result.Published? ==>
              store.dir == old(store.dir) && store.index == old(store.index) && store.writes == old(store.writes)
    // The random query first; exactly one retry, with the category's first query, when it finds nothing.
    ensures !result.AlreadyPosted? ==>
              var category := TodayCategory(dayOfYear);
              var query := RandomQuery(category, random);
              result.queries == if FeedItems(feed(0, query)) == [] then [query, FallbackQuery(category)] else [query]
    ensures result.NoNews? ==>
              var category := TodayCategory(dayOfYear);
              CollectedNews(feed, category, RandomQuery(category, random)) == []
    ensures result.Published? ==>
              var category := TodayCategory(dayOfYear);
              var news := CollectedNews(feed, category, RandomQuery(category, random));
              news != [] &&
              var selected := SelectBestNews(news).value.item;
              var draft := GenerateBlogPost(selected, news, category, reply, parse);
              result.post == Post("daily-" + postDate, draft.title, category, postDate, PostImage(imageUrl),
                                  draft.excerpt, draft.content, true,
                                  SourceRef(selected.title, selected.link, selected.source))
    // The post file first, then the manifest.
    ensures result.Published? ==>
              store.dir == Upsert(old(store.dir), PostFileName(postDate), result.post) &&
              store.index == Some(AddToIndex(old(store.index).GetOr([]), PostFileName(postDate))) &&
              store.writes == old(store.writes) + [PostFileName(postDate), IndexFileName]
    // A published run is seen by the guard of any later run on the same date.
    ensures result.Published? ==> PostedToday(store.dir, postDate)
  {
    var posted := store.HasPostForToday(guardDate);
    if posted {
      return AlreadyPosted;
    }

    var category := TodayCategory(dayOfYear);
    var searchQuery := RandomQuery(category, random);
    var queries := [searchQuery];
    var news := FetchGoogleNews(feed(0, searchQuery));

    if |news| == 0 {
      var fallbackQuery := FallbackQuery(category);
      queries := queries + [fallbackQuery];
      var fallbackNews := FetchGoogleNews(feed(1, fallbackQuery));
      if |fallbackNews| == 0 {
        return NoNews(queries);
      }
      news := news + fallbackNews;
    }
    assert news == CollectedNews(feed, category, searchQuery);

    var selectedNews := SelectBestNews(news).value;
    var postImage := PostImage(imageUrl);
    var postData := GenerateBlogPost(selectedNews.item, news, category, reply, parse);

    var postId := "daily-" + postDate;
    var filename := PostFileName(postDate);
    var post := Post(postId, postData.title, category, postDate, postImage,
                     postData.excerpt, postData.content, true,
                     SourceRef(selectedNews.item.title, selectedNews.item.link, selectedNews.item.source));

    Persist(store, filename, post);
    return Published(post, queries);
  }
}
