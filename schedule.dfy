/**
 * The category scheduler: `CONFIG.categories` rotated by day of the year
 * (`getTodayCategory`), and a query drawn from the category's list (`getRandomQuery`).
 */
module Schedule {

  /** `CONFIG.categories`. */
  const Categories: seq<string> := ["IT", "AI", "교육", "경영"]

  /** `SEARCH_QUERIES[category]`. */
  function QueriesFor(category: string): (qs: seq<string>)
    requires category in Categories
    ensures |qs| == 5
  {
    match category
    case "IT" => ["IT 기술 트렌드", "소프트웨어 개발", "클라우드 컴퓨팅", "사이버보안", "스타트업 테크"]
    case "AI" => ["인공지능 AI", "ChatGPT Claude", "생성형 AI", "머신러닝", "AI 서비스"]
    case "교육" => ["에듀테크", "디지털 교육", "AI 교육", "미래 교육", "온라인 학습"]
    case _ => ["경영 전략", "스타트업 창업", "리더십 경영", "MZ세대 조직문화", "디지털 트랜스포메이션"]
  }

  /** `getTodayCategory`, with the day of the year (1 on January 1st, local time) given. */
  function TodayCategory(dayOfYear: nat): (c: string)
    ensures c in Categories
  {
    Categories[dayOfYear % |Categories|]
  }

  /** The rotation repeats every four days. */
  lemma TodayCategoryPeriodic(dayOfYear: nat)
    ensures TodayCategory(dayOfYear + |Categories|) == TodayCategory(dayOfYear)
  {
  }

  /** Day `d` gets the `i`-th category exactly when `d % 4 == i`: each category has its
      own residue class and every residue class its own category. */
  lemma TodayCategoryIndex(dayOfYear: nat, i: nat)
    requires i < |Categories|
    ensures TodayCategory(dayOfYear) == Categories[i] <==> dayOfYear % |Categories| == i
  {
  }

  /** `Math.floor(random * n)` for `0 <= random < 1`: an index below `n`. */
  function Draw(random: real, n: nat): (k: nat)
    requires 0.0 <= random < 1.0 && n > 0
    ensures k < n
  {
    var x := random * n as real;
    MulBelow(random, n);
    x.Floor
  }

  /** A fraction below one of a positive whole number stays below it. */
  lemma {:induction false} MulBelow(r: real, n: nat)
    requires 0.0 <= r < 1.0 && n > 0
    ensures r * n as real < n as real
  {
    if n > 1 {
      MulBelow(r, n - 1);
      assert r * n as real == r * (n - 1) as real + r;
    }
  }

  /** `getRandomQuery`, with the value of `Math.random()` given. */
  function RandomQuery(category: string, random: real): (q: string)
    requires category in Categories
    requires 0.0 <= random < 1.0
    ensures q in QueriesFor(category)
  {
    QueriesFor(category)[Draw(random, |QueriesFor(category)|)]
  }

  /** Every query of the category is drawn for some value of `Math.random()`. */
  lemma RandomQueryCovers(category: string, k: nat)
    requires category in Categories && k < |QueriesFor(category)|
    ensures RandomQuery(category, k as real / 5.0) == QueriesFor(category)[k]
  {
    assert (k as real / 5.0) * 5.0 == k as real;
  }

  /** `SEARCH_QUERIES[category][0]`, the query of the single retry. */
  function FallbackQuery(category: string): (q: string)
    requires category in Categories
    ensures q in QueriesFor(category)
  {
    QueriesFor(category)[0]
  }
}
