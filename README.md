# Daily auto-post pipeline of the personal blog, modelled in Dafny

This project models the decision logic of `scripts/fetch-news.js`. That script posts one
article a day to the blog automatically. A run does the following:

- It skips when a `.json` file in `posts/` already holds an automatic post dated today.
- It picks the day's category from a four-way rotation, then a random search query in that category.
- It fetches up to ten Google News RSS items. When the fetch finds nothing, it retries once with the category's first query.
- It scores the titles and keeps the best item.
- It resolves an image.
- It drafts the article, through the Anthropic text service or a fixed Korean HTML template.
- It writes `posts/daily-<date>.json`, then puts that file name in front of `posts/index.json`.

Every network call, clock reading, random draw and `JSON.parse` is an input of the model.
What comes back from the services is a plain value, or a function parameter where the source
computes its argument: the feed is a function from the request number and the query to the response, so a retry of the same query can be answered differently, and the parser
is a function from the extracted text to the parsed reply. State that the source changes in
place lives in a class, `Store.PostStore`. That state is the directory listing, the manifest,
and the order in which files are written.

Modules, one per component, each in its own file:

| file | module | models |
|---|---|---|
| `wrappers.dfy` | `Wrappers` | `Option`, for `null`/`undefined`/caught errors |
| `text.dfy` | `Text` | `trim`, UTF-16 `length` and `substring`, `endsWith`, `join`, the `\d` and `["']` tests |
| `news.dfy` | `News` | `fetchGoogleNews`: the first ten items, trimmed, those without title or link dropped |
| `scoring.dfy` | `Scoring` | `selectBestNews`: the score, the stable descending sort, its head |
| `schedule.dfy` | `Schedule` | `CONFIG.categories`, `SEARCH_QUERIES`, `getTodayCategory`, `getRandomQuery` |
| `draft.dfy` | `Draft` | `generateBasicPost`: the emoji table and the exact template |
| `reply.dfy` | `Reply` | `generateBlogPostWithClaude`: JSON span extraction, field fallbacks, disclaimer |
| `store.dfy` | `Store` | `hasPostForToday`, writing a post, `updatePostIndex` |
| `pipeline.dfy` | `Pipeline` | `main` |

The model follows the code, including these details, which are easy to assume otherwise:

- The JSON span runs from the first `{` to the LAST `}`. This is the greedy `/\{[\s\S]*\}/`, not a balanced-brace span.
- A missing `excerpt` in the service's reply becomes `"{category} 분야의 최신 소식을 분석합니다."`, not the template excerpt.
- A missing `content` becomes the template body. The template body already ends with the disclaimer, so the disclaimer then appears twice.
- A file name already in the manifest is not moved to the front.
- The category uses the LOCAL day of the year. The guard's date and the post's date are UTC, and they are two separate clock readings. `main` reads the post date after all the network calls. A run that crosses UTC midnight can therefore check one date and file its post under the next.
- The related-news list is `allNews[1..4)` of the unsorted list. It can repeat the selected article and leave out `allNews[0]`.

## Model

| member | source | states |
|---|---|---|
| `Text.Trim` | scripts/fetch-news.js:47-51 | the trimmed text is empty or starts and ends with a non-white-space character |
| `Text.TrimStartRemovesSpace` | scripts/fetch-news.js:47-51 | every character `trim` removes from the front is ECMAScript white space |
| `Text.TrimEndRemovesSpace` | scripts/fetch-news.js:47-51 | every character `trim` removes from the back is ECMAScript white space |
| `Text.TrimEmptyIffBlank` | scripts/fetch-news.js:47-53 | a field trims to the empty (falsy) string exactly when it is all white space |
| `Text.TrimIdempotent` | scripts/fetch-news.js:47-51 | trimming an already trimmed field changes nothing |
| `Text.Utf16Length` | scripts/fetch-news.js:121 | JavaScript `length` counts between one and two code units per character |
| `Text.BmpLength` | scripts/fetch-news.js:121 | on Hangul/ASCII text `length` is the number of characters |
| `Text.Utf16Prefix` | scripts/fetch-news.js:267 | `substring(0, n)` is a prefix that fits in n code units and cannot take one more character |
| `Text.BmpPrefix` | scripts/fetch-news.js:267 | on Hangul/ASCII text `substring(0, n)` is the first min(n, length) characters |
| `Text.EndsWithAppended` | scripts/fetch-news.js:278 | `s.endsWith(suffix)` holds of any text that ends in `suffix` |
| `News.Normalize` | scripts/fetch-news.js:47-51 | every field of a normalised record has no white space at either end |
| `News.NormalizeUsable` | scripts/fetch-news.js:47-53 | an entry passes `title && link` if and only if its title and its link each hold a character that is not white space |
| `News.Usable` | scripts/fetch-news.js:53-61 | the kept items are no more than the input, and each has a non-empty title and link |
| `News.UsableAppend` | scripts/fetch-news.js:46-62 | the filter distributes over concatenation, so kept items stay in feed order |
| `News.UsableMembers` | scripts/fetch-news.js:53-61 | an item is kept if and only if it is in the input and has a non-empty title and link |
| `News.FeedItems` | scripts/fetch-news.js:31-69 | the result has at most 10 items, all usable; any thrown error gives `[]` |
| `News.FeedItemsMembers` | scripts/fetch-news.js:46-62 | an item is returned if and only if it is the usable trimmed form of one of the first ten entries |
| `News.FetchGoogleNews` | scripts/fetch-news.js:31-69 | the `items.push` loop returns exactly `FeedItems` of the response, at most 10 items |
| `Scoring.Score` | scripts/fetch-news.js:118-126 | the score is one of 0, 3, 5, 8, 10, 13, 15, 18 |
| `Scoring.ScoreDecodes` | scripts/fetch-news.js:118-126 | the three tests add up independently: the score is at least 10 exactly when the length is in range, its last digit is 5 or more exactly when the title holds an ASCII digit (`/\d/`), and it is 3 modulo 5 exactly when the title holds a straight quote (`/["']/`) |
| `Scoring.Insert` | scripts/fetch-news.js:129 | one insertion step keeps every element and adds exactly the inserted one |
| `Scoring.InsertSorted` | scripts/fetch-news.js:129 | inserting into a list sorted by descending score keeps it sorted |
| `Scoring.SortByScore` | scripts/fetch-news.js:129 | the sort returns a permutation of its input, sorted by descending score |
| `Scoring.BestIndex` | scripts/fetch-news.js:129-130 | reference winner: the earliest index whose score is at least every other score |
| `Scoring.SortHead` | scripts/fetch-news.js:129-130 | the head of the stable sort is the earliest highest-scored element |
| `Scoring.SelectBestNews` | scripts/fetch-news.js:114-131 | `null` if and only if the input is empty; otherwise an input item with its own score, which is at least every item's score |
| `Scoring.SelectBestIsEarliestMax` | scripts/fetch-news.js:114-131 | ties go to the earliest item: the first item with the maximal score is returned |
| `Schedule.QueriesFor` | scripts/fetch-news.js:15-20 | every category has five search queries |
| `Schedule.TodayCategory` | scripts/fetch-news.js:100-105 | today's category is one of the four configured categories |
| `Schedule.TodayCategoryPeriodic` | scripts/fetch-news.js:104 | the rotation repeats every four days |
| `Schedule.TodayCategoryIndex` | scripts/fetch-news.js:103-104 | day d gets the i-th category if and only if d mod 4 = i |
| `Schedule.Draw` | scripts/fetch-news.js:110 | `Math.floor(Math.random() * n)` is an index below n |
| `Schedule.RandomQuery` | scripts/fetch-news.js:108-111 | the drawn query is one of the category's queries |
| `Schedule.RandomQueryCovers` | scripts/fetch-news.js:110 | every query of the category can be drawn |
| `Schedule.FallbackQuery` | scripts/fetch-news.js:335 | the retry query is one of the category's own queries |
| `Draft.CategoryEmoji` | scripts/fetch-news.js:229-236 | the emoji is never empty; a name that is not inherited from `Object.prototype` gets an emoji other than 📰 if and only if it is one of the four configured categories |
| `Draft.CategoryEmojiTable` | scripts/fetch-news.js:229-234 | the four categories get 💻 🤖 📚 💼 |
| `Draft.RelatedEntriesAre` | scripts/fetch-news.js:253-255 | the related list holds exactly min(3, max(0, n-1)) entries, those of `allNews[1..4)` in order |
| `Draft.BasicTitleShape` | scripts/fetch-news.js:266 | the template title is the emoji, a space, then the selected title |
| `Draft.BasicExcerptShape` | scripts/fetch-news.js:267 | the template excerpt is the category, " 분야 주요 소식: ", the first min(50, length) characters of the title, then "..." |
| `Draft.BasicPost` | scripts/fetch-news.js:228-270 | the template post's body ends with the disclaimer paragraph, its excerpt ends with "...", and its title is longer than the selected title |
| `Draft.BasicContentSplit` | scripts/fetch-news.js:238-263 | the template body is the template text followed by the disclaimer paragraph |
| `Draft.BasicContentLinksSource` | scripts/fetch-news.js:248 | the template body holds the link to the selected article, right after the introduction |
| `Reply.FirstIndex` | scripts/fetch-news.js:204 | the position of the first occurrence of a character, or none if and only if it does not occur |
| `Reply.LastIndex` | scripts/fetch-news.js:204 | the position of the last occurrence of a character, or none if and only if it does not occur |
| `Reply.JsonSpan` | scripts/fetch-news.js:203-207 | the candidate JSON text is the whole reply, or it starts with `{` and ends with `}` |
| `Reply.JsonSpanMatches` | scripts/fetch-news.js:203-207 | when a `}` follows a `{`, the candidate runs from the first `{` to the last `}` |
| `Reply.JsonSpanNoMatch` | scripts/fetch-news.js:203-207 | when no `}` follows a `{`, the candidate is the whole reply |
| `Reply.OrElse` | scripts/fetch-news.js:211-213 | JavaScript's or-operator on a string field gives the value or the fallback, the value whenever it is truthy, and empty only when both are falsy |
| `Reply.FromParsed` | scripts/fetch-news.js:209-215 | the draft from a parsed reply ends with the disclaimer, has a non-empty excerpt, and has a title whenever the selected item has one |
| `Reply.GenerateBlogPost` | scripts/fetch-news.js:134-224 | on every path the body ends with the disclaimer paragraph and the excerpt is not empty; a selected item with a title yields a draft with a title |
| `Reply.GenerateFallsBack` | scripts/fetch-news.js:134-224 | with no API key, a failed call, or a span that `JSON.parse` rejects or parses to `null`, the draft is exactly the template draft |
| `Reply.GenerateFromParse` | scripts/fetch-news.js:209-215 | with a parse, each falsy field is replaced by its own fallback, and the disclaimer is appended to the body |
| `Reply.MissingContentRepeatsDisclaimer` | scripts/fetch-news.js:213-214 | a parsed reply without a body ends with the disclaimer twice |
| `Reply.NoApiKeyUsesTemplate` | scripts/fetch-news.js:137-140 | without an API key, the title is the emoji and the selected title, and the excerpt starts with the category |
| `Store.PostedTodayIgnores` | scripts/fetch-news.js:277-288 | files that are not today's automatic post never change the guard's answer |
| `Store.Upsert` | scripts/fetch-news.js:380-381 | writing a post stores it under its name and keeps every file of another name; in a listing with unique names the names stay unique and the new post is the only contents under its name |
| `Store.UpsertPostedToday` | scripts/fetch-news.js:273-290 | once today's automatic post is written, the guard reports it, so a second run skips |
| `Store.AddToIndex` | scripts/fetch-news.js:303-305 | the name is in the new manifest; the old manifest is its suffix; it grows by one exactly when the name was absent |
| `Store.AddToIndexIdempotent` | scripts/fetch-news.js:303-305 | adding a name twice equals adding it once |
| `Store.AddToIndexCounts` | scripts/fetch-news.js:303-305 | the added name occurs once unless it was already listed; other names keep their counts |
| `Store.AddToIndexNoDuplicates` | scripts/fetch-news.js:303-305 | a manifest without duplicates stays without duplicates |
| `Store.AddToIndexTwiceFront` | scripts/fetch-news.js:303-305 | a new name added twice is in front exactly once, followed by the old manifest |
| `Store.PostStore.HasPostForToday` | scripts/fetch-news.js:273-290 | the early-return scan answers true if and only if some `.json` file parses to a post with today's date and a truthy `autoGenerated` |
| `Store.PostStore.SavePost` | scripts/fetch-news.js:380-381 | the directory gains or replaces the post file; the manifest is untouched; one write is logged |
| `Store.PostStore.UpdatePostIndex` | scripts/fetch-news.js:293-309 | the manifest becomes `AddToIndex` of the old one (missing/corrupt read as empty); the directory is untouched |
| `Pipeline.PostImage` | scripts/fetch-news.js:351 | the image is the resolved URL when non-empty, else `images/banner.png` |
| `Pipeline.PostFileName` | scripts/fetch-news.js:361-362 | the post file name ends in `.json` |
| `Pipeline.CollectedNews` | scripts/fetch-news.js:330-342 | the news list is empty if and only if both the first request and the retry found nothing |
| `Pipeline.RetryOfSameQueryCanSucceed` | scripts/fetch-news.js:330-336 | when the draw picks the category's first query and that request finds nothing, the retry of the same query still supplies its own news |
| `Pipeline.Persist` | scripts/fetch-news.js:380-386 | the post file is written before the manifest, and the guard then sees the post |
| `Pipeline.RunDaily` | scripts/fetch-news.js:312-389 | skip if and only if already posted; one random query and, only after an empty fetch, exactly one retry with the first query; no write unless published; the post's fields; file then manifest |

## Left out

- HTTP: the Google News GET, the Unsplash redirect chase and the Anthropic POST are not modelled. Their results are inputs: the feed is a function from request number and query to response, the image URL is an option, and the service reply is a value.
- `fetchUnsplashImage` as a whole (scripts/fetch-news.js:72-97) is not modelled. Its random keyword from `UNSPLASH_KEYWORDS` only shapes a URL for the network, so its result is the `imageUrl` input.
- The XML reading by cheerio is not modelled: a feed response is the list of `<item>` texts. `JSON.parse` of the reply is a parameter. It returns nothing when the text is not JSON, or is `null` (reading a field of `null` throws into the catch at scripts/fetch-news.js:216-218). Any other value gives a record whose fields are absent unless they are strings, so a number, a string or an array gives three absent fields and the fallbacks of scripts/fetch-news.js:211-213, not the template draft. `JSON.stringify` is not modelled: a written post reads back as the same `Post`.
- `Math.random()` is a real number in [0, 1) for the query draw.
- The clock is not modelled: the guard's UTC date, the local day of the year and the post's UTC date are inputs. Daylight-saving effects on the day count are not modelled.
- Console logging, the exit status, and the prompt text sent to the service (scripts/fetch-news.js:144-187) are not modelled.
- Reply fields that are truthy but not strings (numbers, objects) are not modelled: a reply field is a string or absent.
- An `index.json` that parses to something other than an array is not modelled. For a string that contains the file name, `includes` is the substring test and the string is written back unchanged; every other such value makes `includes` or `unshift` throw out of `main` after the post file was written. Manifest entries are strings.
- A throwing `readdirSync` (scripts/fetch-news.js:275) or `writeFileSync` (scripts/fetch-news.js:307, :381) is not modelled: the directory can always be listed and every write succeeds.
- `index.json` itself is not part of the modelled directory listing. It parses to an array, which has no `date`, so it never satisfies the guard.
- The listing order of a newly written file is not modelled: it goes at the end. The guard's answer does not depend on order (`Store.PostedTodayIgnores`).
- Text.Utf16Prefix: when position n falls between the two halves of a surrogate pair, JavaScript's `substring(0, n)` ends with the lone high half. A Dafny string cannot hold it, so the model stops before that character, one code unit short.
- Draft.CategoryEmoji: the names inherited from `Object.prototype` (`constructor`, `toString`, `__proto__` and the others in `Draft.InheritedKeys`) find a truthy member in the emoji table in JavaScript, so the emoji is that member's text. The model gives 📰 and its contract excludes those names. The only caller passes one of the four configured categories.
- Draft.BasicExcerptShape: when the 50th UTF-16 code unit of a title is the first half of a surrogate pair, JavaScript keeps the lone half. `Text.Utf16Prefix` cannot hold it and stops before that character. The exact equality is proved for Hangul/ASCII titles.
- Scoring.SortByScore: it is an insertion sort, not V8's algorithm. Both are stable, and a stable sort's output is fixed by its input and comparator. Only its head is used.
- `script.js` (the page renderer) is not modelled.
- Concurrent runs are not modelled.
