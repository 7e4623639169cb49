/**
 * The draft generator (`generateBlogPostWithClaude`): when the text service answers,
 * the candidate JSON is cut out of its reply with the greedy pattern `/\{[\s\S]*\}/`,
 * parsed, and its missing or empty fields are filled in; every other path (no API key,
 * a failed call, a span that `JSON.parse` rejects or that parses to `null`) yields the
 * fallback draft.
 */
module Reply {
  import opened Wrappers
  import opened Text
  import opened News
  import opened Draft

  /** The fields read from the parsed span; `None` when a field is absent or not a string.
      Any parsed value other than `null` gives a record: a number, a string or an array
      has no such fields, so all three read as `None`. */
  datatype ParsedReply = ParsedReply(title: Option<string>, excerpt: Option<string>, content: Option<string>)

  /** What the call to the text service produced: no API key configured (absent or empty),
      a thrown error (network, timeout, HTTP status, unexpected body), or the reply text. */
  datatype ServiceReply = NoApiKey | CallFailed | Replied(text: string)

  /** The index of the first `c` in `s`. */
  function FirstIndex(s: string, c: char): (r: Option<nat>)
    ensures r.None? <==> c !in s
    ensures r.Some? ==> r.value < |s| && s[r.value] == c && c !in s[..r.value]
  {
    if s == [] then None
    else if s[0] == c then Some(0)
    else
      match FirstIndex(s[1..], c)
      case None => None
      case Some(i) => assert s[..i + 1] == [s[0]] + s[1..][..i]; Some(i + 1)
  }

  /** The index of the last `c` in `s`. */
  function LastIndex(s: string, c: char): (r: Option<nat>)
    ensures r.None? <==> c !in s
    ensures r.Some? ==> r.value < |s| && s[r.value] == c && c !in s[r.value + 1..]
  {
    if s == [] then None
    else if s[|s| - 1] == c then Some(|s| - 1)
    else
      var r := LastIndex(s[..|s| - 1], c);
      assert r.Some? ==> s[r.value + 1..] == s[..|s| - 1][r.value + 1..] + [s[|s| - 1]];
      r
  }

  /** `responseText.match(/\{[\s\S]*\}/)`, or the whole text when it does not match. */
  function JsonSpan(text: string): (r: string)
    ensures r == text || (|r| >= 2 && r[0] == '{' && r[|r| - 1] == '}')
  {
    match (FirstIndex(text, '{'), LastIndex(text, '}'))
    case (Some(i), Some(j)) => if i < j then text[i..j + 1] else text
    case _ => text
  }

  /** When a `}` follows a `{`, the span runs from the first `{` to the last `}`. */
  lemma JsonSpanMatches(text: string, i: nat, j: nat)
    requires i < j < |text| && text[i] == '{' && text[j] == '}'
    requires '{' !in text[..i] && '}' !in text[j + 1..]
    ensures JsonSpan(text) == text[i..j + 1]
  {
    var fi := FirstIndex(text, '{');
    var lj := LastIndex(text, '}');
    assert text[i] in text;
    assert text[j] in text;
    assert fi == Some(i);
    assert lj == Some(j);
  }

  /** When no `}` follows any `{`, the pattern does not match and the whole text is used. */
  lemma JsonSpanNoMatch(text: string)
    requires forall i, j | 0 <= i < j < |text| :: !(text[i] == '{' && text[j] == '}')
    ensures JsonSpan(text) == text
  {
  }

  /** `value || fallback` for a string field: an absent or empty string is falsy. The result
      is one of the two, the value whenever it is truthy, and falsy only when both are. */
  function OrElse(value: Option<string>, fallback: string): (r: string)
    ensures r == fallback || (value.Some? && r == value.value)
    ensures value.Some? && value.value != "" ==> r == value.value
    ensures r == "" <==> fallback == "" && (value.None? || value.value == "")
  {
    if value.Some? && value.value != "" then value.value else fallback
  }

  /** The draft built from a parsed reply, missing fields filled in, disclaimer appended:
      the body ends with the disclaimer, the excerpt is never empty, and the title is empty
      only when the selected item's title is. */
  function FromParsed(parsed: ParsedReply, selected: NewsItem, allNews: seq<NewsItem>, category: string): (d: Draft)
    ensures EndsWith(d.content, Disclaimer)
    ensures d.excerpt != ""
    ensures selected.title != "" ==> d.title != ""
  {
    var body := OrElse(parsed.content, BasicPost(selected, allNews, category).content) + "\n\n";
    EndsWithAppended(body, Disclaimer);
    Draft(
      OrElse(parsed.title, selected.title),
      OrElse(parsed.excerpt, category + " 분야의 최신 소식을 분석합니다."),
      body + Disclaimer)
  }

  /** `generateBlogPostWithClaude`, with the service reply and `JSON.parse` given. Whatever
      the service does, the body ends with the disclaimer paragraph, the excerpt is not
      empty, and a selected item with a title yields a draft with a title. */
  function GenerateBlogPost(selected: NewsItem, allNews: seq<NewsItem>, category: string,
                            reply: ServiceReply, parse: string -> Option<ParsedReply>): (d: Draft)
    ensures EndsWith(d.content, Disclaimer)
    ensures d.excerpt != ""
    ensures selected.title != "" ==> d.title != ""
  {
    var basic := BasicPost(selected, allNews, category);
    assert EndsWith(basic.content, Disclaimer) && basic.excerpt != "" && |basic.title| > |selected.title|;
    match reply
    case NoApiKey => basic
    case CallFailed => basic
    case Replied(text) =>
      match parse(JsonSpan(text))
      case None => basic
      case Some(parsed) =>
        var drafted := FromParsed(parsed, selected, allNews, category);
        assert EndsWith(drafted.content, Disclaimer) && drafted.excerpt != "";
        drafted
  }

  /** Without a usable parse of the extracted span the result is the fallback draft. */
  lemma GenerateFallsBack(selected: NewsItem, allNews: seq<NewsItem>, category: string,
                          reply: ServiceReply, parse: string -> Option<ParsedReply>)
    requires !reply.Replied? || parse(JsonSpan(reply.text)).None?
    ensures GenerateBlogPost(selected, allNews, category, reply, parse) == BasicPost(selected, allNews, category)
  {
  }

  /** With a parse, each field is the parsed one when truthy and its own fallback
      otherwise, and the body gets the disclaimer appended. */
  lemma GenerateFromParse(selected: NewsItem, allNews: seq<NewsItem>, category: string,
                          text: string, parse: string -> Option<ParsedReply>)
    requires parse(JsonSpan(text)).Some?
    ensures var p := parse(JsonSpan(text)).value;
            var d := GenerateBlogPost(selected, allNews, category, Replied(text), parse);
            d.title == (if p.title.Some? && p.title.value != "" then p.title.value else selected.title) &&
            d.excerpt == (if p.excerpt.Some? && p.excerpt.value != "" then p.excerpt.value
                          else category + " 분야의 최신 소식을 분석합니다.") &&
            d.content == (if p.content.Some? && p.content.value != "" then p.content.value
                          else BasicPost(selected, allNews, category).content) + "\n\n" + Disclaimer
  {
    var p := parse(JsonSpan(text)).value;
    var d := GenerateBlogPost(selected, allNews, category, Replied(text), parse);
    assert d == FromParsed(p, selected, allNews, category);
  }

  /** A parsed reply without a body repeats the disclaimer: the fallback body already
      ends with it and the suffix adds it once more. */
  lemma MissingContentRepeatsDisclaimer(selected: NewsItem, allNews: seq<NewsItem>, category: string,
                                        text: string, parse: string -> Option<ParsedReply>)
    requires parse(JsonSpan(text)).Some?
    requires var p := parse(JsonSpan(text)).value; p.content.None? || p.content.value == ""
    ensures EndsWith(GenerateBlogPost(selected, allNews, category, Replied(text), parse).content,
                     Disclaimer + "\n\n" + Disclaimer)
  {
    var p := parse(JsonSpan(text)).value;
    var d := GenerateBlogPost(selected, allNews, category, Replied(text), parse);
    assert d == FromParsed(p, selected, allNews, category);
    assert d.content == BasicPost(selected, allNews, category).content + "\n\n" + Disclaimer;
    BasicContentSplit(selected, allNews, category);
    EndsWithRepeated(BasicBody(selected, allNews, category), Disclaimer, "\n\n");
  }

  /** Without an API key the draft is the template: its title is the category emoji and
      the selected title, and its excerpt starts with the category name. */
  lemma NoApiKeyUsesTemplate(selected: NewsItem, allNews: seq<NewsItem>, category: string,
                             parse: string -> Option<ParsedReply>)
    ensures var d := GenerateBlogPost(selected, allNews, category, NoApiKey, parse);
            d.title == CategoryEmoji(category) + " " + selected.title &&
            |category| <= |d.excerpt| && d.excerpt[..|category|] == category
  {
    var d := GenerateBlogPost(selected, allNews, category, NoApiKey, parse);
    assert d == BasicPost(selected, allNews, category);
    assert d.excerpt == BasicExcerpt(selected, category);
    StartsWithFirst(category, " 분야 주요 소식: ", Utf16Prefix(selected.title, 50), "...");
  }
}
