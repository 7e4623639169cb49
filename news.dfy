/**
 * The feed client (`fetchGoogleNews`): the RSS response, once fetched and parsed, is a
 * list of `<item>` elements; the first ten are trimmed field by field and those with an
 * empty title or link are dropped. Any thrown error (network, timeout, XML) yields no news.
 */
module News {
  import opened Text

  /** One `<item>` as the XML reader sees it: the text of each child element, untrimmed. */
  datatype RawItem = RawItem(title: string, link: string, pubDate: string, source: string, description: string)

  /** A normalised news record, every field trimmed. */
  datatype NewsItem = NewsItem(title: string, link: string, pubDate: string, source: string, description: string)

  /** What the HTTP GET and the XML parse produced: `Failed` for any thrown error. */
  datatype FeedResponse = Failed | Fetched(items: seq<RawItem>)

  /** `$('item').slice(0, 10)`. */
  const MaxItems: nat := 10

  /** `$(elem).find(...).text().trim()` for each of the five fields. */
  function Normalize(raw: RawItem): (n: NewsItem)
    ensures Trimmed(n.title) && Trimmed(n.link) && Trimmed(n.pubDate) && Trimmed(n.source) && Trimmed(n.description)
  {
    NewsItem(Trim(raw.title), Trim(raw.link), Trim(raw.pubDate), Trim(raw.source), Trim(raw.description))
  }

  /** `if (title && link)`: both trimmed strings are truthy, that is, non-empty. */
  predicate IsUsable(n: NewsItem) {
    n.title != "" && n.link != ""
  }

  /** An entry is kept exactly when its title and its link each hold a character that is
      not white space. */
  lemma NormalizeUsable(raw: RawItem)
    ensures IsUsable(Normalize(raw)) <==>
            (exists k | 0 <= k < |raw.title| :: !IsJsSpace(raw.title[k])) &&
            (exists k | 0 <= k < |raw.link| :: !IsJsSpace(raw.link[k]))
  {
    TrimEmptyIffBlank(raw.title);
    TrimEmptyIffBlank(raw.link);
  }

  /** The normalised form of every entry of `raws`, in feed order. */
  function NormalizeAll(raws: seq<RawItem>): (r: seq<NewsItem>)
    ensures |r| == |raws|
    ensures forall k | 0 <= k < |raws| :: r[k] == Normalize(raws[k])
  {
    seq(|raws|, k requires 0 <= k < |raws| => Normalize(raws[k]))
  }

  lemma NormalizeAllSnoc(raws: seq<RawItem>, i: nat)
    requires i < |raws|
    ensures NormalizeAll(raws[..i + 1]) == NormalizeAll(raws[..i]) + [Normalize(raws[i])]
  {
  }

  /** The usable items of `items`, in their original order. */
  function Usable(items: seq<NewsItem>): (r: seq<NewsItem>)
    ensures |r| <= |items|
    ensures forall k | 0 <= k < |r| :: IsUsable(r[k])
  {
    if items == [] then []
    else (if IsUsable(items[0]) then [items[0]] else []) + Usable(items[1..])
  }

  /** Filtering distributes over concatenation: the kept items keep their feed order. */
  lemma {:induction false} UsableAppend(a: seq<NewsItem>, b: seq<NewsItem>)
    ensures Usable(a + b) == Usable(a) + Usable(b)
  {
    if a == [] {
      assert a + b == b;
    } else {
      assert (a + b)[1..] == a[1..] + b;
      UsableAppend(a[1..], b);
    }
  }

  /** The filter keeps exactly the usable items: nothing else, and none of them is lost. */
  lemma {:induction false} UsableMembers(items: seq<NewsItem>, n: NewsItem)
    ensures n in Usable(items) <==> n in items && IsUsable(n)
  {
    if items != [] {
      UsableMembers(items[1..], n);
      assert items == [items[0]] + items[1..];
    }
  }

  /** The list `fetchGoogleNews` returns for a given response. */
  function FeedItems(response: FeedResponse): (items: seq<NewsItem>)
    ensures |items| <= MaxItems
    ensures forall k | 0 <= k < |items| :: IsUsable(items[k])
    ensures response.Failed? ==> items == []
  {
    match response
    case Failed => []
    case Fetched(raws) => Usable(NormalizeAll(raws[..Min(MaxItems, |raws|)]))
  }

  /** An item is returned exactly when it is the usable normalised form of one of the
      first ten feed entries. */
  lemma FeedItemsMembers(raws: seq<RawItem>, n: NewsItem)
    ensures n in FeedItems(Fetched(raws)) <==>
            IsUsable(n) && exists j | 0 <= j < Min(MaxItems, |raws|) :: n == Normalize(raws[j])
  {
    var m := Min(MaxItems, |raws|);
    var all := NormalizeAll(raws[..m]);
    UsableMembers(all, n);
    if n in all {
      var j :| 0 <= j < |all| && all[j] == n;
      assert n == Normalize(raws[j]);
    }
    if exists j | 0 <= j < m :: n == Normalize(raws[j]) {
      var j :| 0 <= j < m && n == Normalize(raws[j]);
      assert all[j] == n;
    }
  }

  /** The `items.push` loop of `fetchGoogleNews` over the first ten entries. */
  method FetchGoogleNews(response: FeedResponse) returns (items: seq<NewsItem>)
    ensures items == FeedItems(response)
    ensures |items| <= MaxItems
  {
    items := [];
    if response.Failed? {
      return;
    }
    var raws := response.items;
    var n := Min(MaxItems, |raws|);
    var i := 0;
    while i < n
      invariant 0 <= i <= n
      invariant items == Usable(NormalizeAll(raws[..i]))
    {
      var item := Normalize(raws[i]);
      var done := NormalizeAll(raws[..i]);
      UsableAppend(done, [item]);
      NormalizeAllSnoc(raws, i);
      assert Usable([item]) == if IsUsable(item) then [item] else [] by {
        assert [item][1..] == [];
      }
      if IsUsable(item) {
        items := items + [item];
      }
      i := i + 1;
    }
    assert raws[..i] == raws[..n];
    assert items == FeedItems(response);
  }
}
