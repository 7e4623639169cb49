/**
 * The relevance scorer (`selectBestNews`): every item gets a heuristic score from its
 * title, the scored list is sorted by descending score with JavaScript's stable
 * `Array.prototype.sort`, and the first element wins.
 */
module Scoring {
  import opened Wrappers
  import opened Text
  import opened News

  /** `{ ...item, score }`. */
  datatype Scored = Scored(item: NewsItem, score: int)

  /** +10 when the UTF-16 length of the title is strictly between 20 and 80, +5 when it
      holds an ASCII digit, +3 when it holds a straight quote. */
  function Score(title: string): (s: int)
    ensures 0 <= s <= 18
    ensures s in {0, 3, 5, 8, 10, 13, 15, 18}
  {
    (if 20 < Utf16Length(title) < 80 then 10 else 0) +
    (if HasDigit(title) then 5 else 0) +
    (if HasQuote(title) then 3 else 0)
  }

  /** The three tests of the scorer can be read back from the score alone: its tens say
      whether the length is in range, and its remainder whether a digit and a quote occur. */
  lemma ScoreDecodes(title: string)
    ensures Score(title) >= 10 <==> 20 < Utf16Length(title) < 80
    ensures Score(title) % 10 >= 5 <==> HasDigit(title)
    ensures Score(title) % 5 == 3 <==> HasQuote(title)
  {
  }

  /** `newsItems.map(...)`: each item paired with its score, in input order. */
  function WithScores(items: seq<NewsItem>): (r: seq<Scored>)
    ensures |r| == |items|
    ensures forall k | 0 <= k < |items| :: r[k] == Scored(items[k], Score(items[k].title))
  {
    seq(|items|, k requires 0 <= k < |items| => Scored(items[k], Score(items[k].title)))
  }

  /** Descending by score, which is what the comparator `(a, b) => b.score - a.score` asks for. */
  ghost predicate SortedByScore(s: seq<Scored>) {
    forall i, j | 0 <= i < j < |s| :: s[i].score >= s[j].score
  }

  /** Inserts `x`, which comes before every element of `l` in the input, ahead of the
      first element of `l` with a score not above its own: equal scores keep their order. */
  function Insert(x: Scored, l: seq<Scored>): (r: seq<Scored>)
    ensures |r| == |l| + 1
    ensures multiset(r) == multiset(l) + multiset{x}
  {
    if l == [] || x.score >= l[0].score then [x] + l
    else
      assert l == [l[0]] + l[1..];
      [l[0]] + Insert(x, l[1..])
  }

  lemma {:induction false} InsertSorted(x: Scored, l: seq<Scored>)
    requires SortedByScore(l)
    ensures SortedByScore(Insert(x, l))
  {
    if l != [] && x.score < l[0].score {
      var rest := Insert(x, l[1..]);
      InsertSorted(x, l[1..]);
      forall k | 0 <= k < |rest| ensures rest[k].score <= l[0].score {
        assert rest[k] in multiset(rest);
        if rest[k] != x {
          assert rest[k] in multiset(l[1..]);
          var j :| 0 <= j < |l[1..]| && l[1..][j] == rest[k];
          assert l[j + 1] == rest[k];
        }
      }
      assert Insert(x, l) == [l[0]] + rest;
    }
  }

  /** The stable sort of `scored.sort(...)`. A stable sort's output is determined by its
      input and comparator alone, so insertion sort gives the order the source gets. */
  function SortByScore(s: seq<Scored>): (r: seq<Scored>)
    ensures |r| == |s|
    ensures multiset(r) == multiset(s)
    ensures SortedByScore(r)
  {
    if s == [] then []
    else
      assert s == [s[0]] + s[1..];
      InsertSorted(s[0], SortByScore(s[1..]));
      Insert(s[0], SortByScore(s[1..]))
  }

  /** Reference definition of the winner: the earliest index holding the highest score. */
  function BestIndex(s: seq<Scored>): (k: nat)
    requires s != []
    ensures k < |s|
    ensures forall j | 0 <= j < |s| :: s[j].score <= s[k].score
    ensures forall j | 0 <= j < k :: s[j].score < s[k].score
  {
    if |s| == 1 then 0
    else
      var k' := BestIndex(s[1..]) + 1;
      if s[0].score >= s[k'].score then 0 else k'
  }

  /** The head of the stable sort is the earliest highest-scored element. */
  lemma {:induction false} SortHead(s: seq<Scored>)
    requires s != []
    ensures SortByScore(s)[0] == s[BestIndex(s)]
  {
    if |s| > 1 {
      SortHead(s[1..]);
    }
  }

  /** `selectBestNews`: `null` for an empty list, otherwise the first element of the sorted
      scored list. */
  function SelectBestNews(items: seq<NewsItem>): (r: Option<Scored>)
    ensures r.None? <==> items == []
    ensures r.Some? ==> r.value.item in items && r.value.score == Score(r.value.item.title)
    ensures r.Some? ==> forall j | 0 <= j < |items| :: Score(items[j].title) <= r.value.score
  {
    if items == [] then None
    else
      var scored := WithScores(items);
      SortHead(scored);
      Some(SortByScore(scored)[0])
  }

  /** Ties go to the earliest item: the winner is the first item whose score is maximal,
      and nothing before it scores as much. */
  lemma SelectBestIsEarliestMax(items: seq<NewsItem>, k: nat)
    requires k < |items|
    requires forall j | 0 <= j < |items| :: Score(items[j].title) <= Score(items[k].title)
    requires forall j | 0 <= j < k :: Score(items[j].title) < Score(items[k].title)
    ensures SelectBestNews(items) == Some(Scored(items[k], Score(items[k].title)))
  {
    var scored := WithScores(items);
    SortHead(scored);
    var b := BestIndex(scored);
    assert b == k;
  }
}
