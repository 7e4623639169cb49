/**
 * The post store: the `posts` directory, the `posts/index.json` manifest, and the three
 * operations on them — the idempotency guard (`hasPostForToday`), writing a post file,
 * and `updatePostIndex`.
 */
module Store {
  import opened Wrappers
  import opened Text

  /** `sourceNews`: where the post's story came from. */
  datatype SourceRef = SourceRef(title: string, link: string, source: string)

  /** A post record as stored in `posts/<id>.json`. */
  datatype Post = Post(id: string, title: string, category: string, date: string, image: string,
                       excerpt: string, content: string, autoGenerated: bool, sourceNews: SourceRef)

  /** A file of the posts directory and what `JSON.parse` makes of it: `None` when it does
      not parse, parses to `null`, or has no string `date` (`content.date === today` is then
      false for every date string). A record whose `autoGenerated` is absent or falsy reads
      with `autoGenerated == false`. */
  datatype DirEntry = DirEntry(name: string, body: Option<Post>)

  const IndexFileName: string := "index.json"

  /** The entry is a `.json` file holding an automatic post dated `today`. */
  predicate IsTodaysAutoPost(e: DirEntry, today: string) {
    EndsWith(e.name, ".json") && e.body.Some? && e.body.value.date == today && e.body.value.autoGenerated
  }

  /** Some file of the directory is today's automatic post. */
  predicate PostedToday(dir: seq<DirEntry>, today: string) {
    exists k | 0 <= k < |dir| :: IsTodaysAutoPost(dir[k], today)
  }

  /** Files that are not today's automatic post (other names, unparseable contents, other
      dates, hand-written posts) never change what the guard answers. */
  lemma PostedTodayIgnores(before: seq<DirEntry>, e: DirEntry, after: seq<DirEntry>, today: string)
    requires !IsTodaysAutoPost(e, today)
    ensures PostedToday(before + [e] + after, today) == PostedToday(before + after, today)
  {
    var whole := before + [e] + after;
    var rest := before + after;
    if PostedToday(whole, today) {
      var k :| 0 <= k < |whole| && IsTodaysAutoPost(whole[k], today);
      if k < |before| {
        assert rest[k] == whole[k];
      } else {
        assert k > |before|;
        assert rest[k - 1] == whole[k];
      }
    }
    if PostedToday(rest, today) {
      var k :| 0 <= k < |rest| && IsTodaysAutoPost(rest[k], today);
      if k < |before| {
        assert whole[k] == rest[k];
      } else {
        assert whole[k + 1] == rest[k];
      }
    }
  }

  /** No two files of the listing share a name, as in a real directory. */
  predicate NamesUnique(dir: seq<DirEntry>) {
    forall i, j | 0 <= i < j < |dir| :: dir[i].name != dir[j].name
  }

  /** `writeFileSync(name, post)`: the file named `name` is replaced in place, or added at
      the end of the listing when there is none. In a listing with unique names, the new
      post is then the only contents under `name` and the names stay unique. */
  function Upsert(dir: seq<DirEntry>, name: string, post: Post): (r: seq<DirEntry>)
    ensures DirEntry(name, Some(post)) in r
    ensures forall e | e in dir && e.name != name :: e in r
    ensures forall e | e in r && e.name != name :: e in dir
    ensures NamesUnique(dir) ==> NamesUnique(r)
    ensures NamesUnique(dir) ==> forall e | e in r && e.name == name :: e == DirEntry(name, Some(post))
  {
    if dir == [] then [DirEntry(name, Some(post))]
    else if dir[0].name == name then [DirEntry(name, Some(post))] + dir[1..]
    else [dir[0]] + Upsert(dir[1..], name, post)
  }

  /** Once today's automatic post is written to a `.json` file, the guard reports it: a
      second run on the same day skips. */
  lemma UpsertPostedToday(dir: seq<DirEntry>, name: string, post: Post)
    requires EndsWith(name, ".json") && post.autoGenerated
    ensures PostedToday(Upsert(dir, name, post), post.date)
  {
    var r := Upsert(dir, name, post);
    var k :| 0 <= k < |r| && r[k] == DirEntry(name, Some(post));
    assert IsTodaysAutoPost(r[k], post.date);
  }

  /** No file name occurs twice. */
  predicate NoDuplicates(names: seq<string>) {
    forall i, j | 0 <= i < j < |names| :: names[i] != names[j]
  }

  /** The new manifest: `name` in front when it is absent, the old one unchanged otherwise. */
  function AddToIndex(index: seq<string>, name: string): (r: seq<string>)
    ensures name in r
    ensures |r| == if name in index then |index| else |index| + 1
    ensures r[|r| - |index|..] == index
  {
    if name !in index then [name] + index else index
  }

  /** Adding the same name twice is the same as adding it once. */
  lemma AddToIndexIdempotent(index: seq<string>, name: string)
    ensures AddToIndex(AddToIndex(index, name), name) == AddToIndex(index, name)
  {
  }

  /** The name occurs once after it is added, unless the old manifest already listed it;
      every other name occurs as often as before. */
  lemma AddToIndexCounts(index: seq<string>, name: string, other: string)
    requires other != name
    ensures multiset(AddToIndex(index, name))[name] == if name in index then multiset(index)[name] else 1
    ensures multiset(AddToIndex(index, name))[other] == multiset(index)[other]
  {
  }

  /** A manifest without duplicates stays without duplicates. */
  lemma AddToIndexNoDuplicates(index: seq<string>, name: string)
    requires NoDuplicates(index)
    ensures NoDuplicates(AddToIndex(index, name))
  {
  }

  /** An absent name lands in front and stays there, exactly once, however often it is
      added again. */
  lemma AddToIndexTwiceFront(index: seq<string>, name: string)
    requires name !in index
    ensures var r := AddToIndex(AddToIndex(index, name), name);
            r[0] == name && r[1..] == index && multiset(r)[name] == 1
  {
  }

  class PostStore {
    /** The posts directory, in `readdirSync` order. */
    var dir: seq<DirEntry>
    /** The contents of `index.json`; `None` when it is missing or does not parse. */
    var index: Option<seq<string>>
    /** The names of the files written, in the order they were written. */
    var writes: seq<string>

    constructor (dir: seq<DirEntry>, index: Option<seq<string>>)
      ensures this.dir == dir && this.index == index && writes == []
    {
      this.dir := dir;
      this.index := index;
      writes := [];
    }

    /** `hasPostForToday`, with today's UTC date string given: the scan stops at the first
        `.json` file that holds an automatic post dated today. */
    method HasPostForToday(today: string) returns (found: bool)
      ensures found == PostedToday(dir, today)
    {
      for i := 0 to |dir|
        invariant forall k | 0 <= k < i :: !IsTodaysAutoPost(dir[k], today)
      {
        var file := dir[i];
        if EndsWith(file.name, ".json") {
          match file.body
          case None =>
          case Some(content) =>
            if content.date == today && content.autoGenerated {
              return true;
            }
        }
      }
      return false;
    }

    /** `fs.writeFileSync(filePath, JSON.stringify(post))`. */
    method SavePost(filename: string, post: Post)
      modifies this
      ensures dir == Upsert(old(dir), filename, post)
      ensures index == old(index)
      ensures writes == old(writes) + [filename]
    {
      dir := Upsert(dir, filename, post);
      writes := writes + [filename];
    }

    /** `updatePostIndex`: a missing or corrupt manifest counts as empty, the name is put in
        front (`unshift`) only when it is absent, and the manifest is rewritten. */
    method UpdatePostIndex(filename: string)
      modifies this
      ensures index == Some(AddToIndex(old(index).GetOr([]), filename))
      ensures dir == old(dir)
      ensures writes == old(writes) + [IndexFileName]
    {
      var entries: seq<string> := [];
      if index.Some? {
        entries := index.value;
      }
      if filename !in entries {
        entries := [filename] + entries;
      }
      index := Some(entries);
      writes := writes + [IndexFileName];
    }
  }
}
