/**
 * Writing the site under `dist`: a page per post with links to its
 * neighbours, a page per Markdown or JSX file below `pages`, and the index.
 */
module WriteFiles {
  import opened Wrappers
  import opened Strings
  import opened Sorting
  import opened Helpers
  import opened Posts
  import opened FrontMatter
  import opened IngestFiles
  import opened Environment
  import opened RenderMarkdown
  import opened ContentModifier
  import opened TokenPattern
  import opened HtmlTemplate

  /** The generated site: the text of every file written, by path. Making
      a directory is implied by writing below it. */
  class Site {
    var files: map<string, string>

    constructor (files: map<string, string>)
      ensures this.files == files
    {
      this.files := files;
    }

    /** `Deno.writeTextFileSync(path, text)`. */
    method Write(path: string, text: string)
      modifies this
      ensures files == old(files)[path := text]
    {
      files := files[path := text];
    }

    /** `cleanUpDistDirectory()`: everything below `dist` removed. */
    method CleanUpDist()
      modifies this
      ensures files == WithoutDist(old(files))
    {
      files := map p | p in files && !StartsWith(p, "dist/") :: files[p];
    }
  }

  /** The files outside `dist`. */
  function WithoutDist(files: map<string, string>): (r: map<string, string>)
    ensures forall p :: p in r <==> p in files && !StartsWith(p, "dist/")
    ensures forall p :: p in r ==> r[p] == files[p]
  {
    map p | p in files && !StartsWith(p, "dist/") :: files[p]
  }

  /** The files after a sequence of writes, later writes replacing earlier ones. */
  function Written(files: map<string, string>, writes: seq<(string, string)>): map<string, string>
    decreases |writes|
  {
    if writes == [] then files
    else
      var w := writes[|writes| - 1];
      Written(files, writes[..|writes| - 1])[w.0 := w.1]
  }

  /** Writing two sequences in turn is writing both. */
  lemma {:induction false} WrittenAppend(files: map<string, string>, a: seq<(string, string)>, b: seq<(string, string)>)
    ensures Written(files, a + b) == Written(Written(files, a), b)
    decreases |b|
  {
    if b != [] {
      var c := a + b;
      assert c[..|c| - 1] == a + b[..|b| - 1];
      WrittenAppend(files, a, b[..|b| - 1]);
    } else {
      assert a + b == a;
    }
  }

  lemma WrittenSnoc(files: map<string, string>, writes: seq<(string, string)>, w: (string, string))
    ensures Written(files, writes + [w]) == Written(files, writes)[w.0 := w.1]
  {
    assert (writes + [w])[..|writes|] == writes;
  }

  /** What a sequence of writes leaves at a path: the last text written
      there, or what was there before. */
  lemma {:induction false} WrittenAt(files: map<string, string>, writes: seq<(string, string)>, path: string)
    ensures (exists i :: 0 <= i < |writes| && writes[i].0 == path) ==> path in Written(files, writes)
    ensures (forall i :: 0 <= i < |writes| ==> writes[i].0 != path) ==>
              (path in Written(files, writes) <==> path in files)
              && (path in files ==> Written(files, writes)[path] == files[path])
    decreases |writes|
  {
    if writes != [] {
      var front := writes[..|writes| - 1];
      WrittenAt(files, front, path);
      if exists i :: 0 <= i < |writes| && writes[i].0 == path {
        var i :| 0 <= i < |writes| && writes[i].0 == path;
        if i < |front| {
          assert front[i].0 == path;
        }
      }
    }
  }

  // ---------------------------------------------------------------------------
  // posts

  /** `postsList.findIndex(({ postKey: k }) => k === key)`. */
  function FindIndex(postsList: seq<PostIDUrl>, key: string): (r: int)
    ensures -1 <= r < |postsList|
    ensures r >= 0 ==> postsList[r].postKey == key
                       && forall j :: 0 <= j < r ==> postsList[j].postKey != key
    ensures r == -1 <==> forall j :: 0 <= j < |postsList| ==> postsList[j].postKey != key
  {
    if postsList == [] then -1
    else if postsList[0].postKey == key then 0
    else
      var r := FindIndex(postsList[1..], key);
      if r == -1 then -1 else r + 1
  }

  /** `postsList[i]?.url ?? null`: nothing outside the list. */
  function UrlAt(postsList: seq<PostIDUrl>, i: int): Option<string> {
    if 0 <= i < |postsList| then Some(postsList[i].url) else None
  }

  /** The link to the newer neighbour of the first post with `key`. */
  function NextUrl(postsList: seq<PostIDUrl>, key: string): Option<string> {
    UrlAt(postsList, FindIndex(postsList, key) - 1)
  }

  /** The link to the older neighbour of the first post with `key`. */
  function PrevUrl(postsList: seq<PostIDUrl>, key: string): Option<string> {
    UrlAt(postsList, FindIndex(postsList, key) + 1)
  }

  /** `frontMatter?.noFrontMatter`, as the page title's condition reads it. */
  predicate NoFrontMatter(frontMatter: Option<Attrs>) {
    frontMatter.Some? && "noFrontMatter" in frontMatter.value && Truthy(frontMatter.value["noFrontMatter"])
  }

  /** The record `createPosts` keeps for the file at `path` below `posts`. */
  function PostFor(env: Env, postsList: seq<PostIDUrl>, path: string): PostInfo {
    var fileName := FileName(path);
    var parts := Split(fileName, '-');
    var read := Read(env, "posts/" + path);
    var postKey := PostKey(fileName);
    PostInfo(postKey,
             FormatDateString(DatePart(parts, 0), DatePart(parts, 1), DatePart(parts, 2), "-"),
             ExtractTitle(read.frontMatter),
             read.content,
             PostUrl(fileName),
             NextUrl(postsList, postKey),
             PrevUrl(postsList, postKey))
  }

  /** `dist/posts/${year}/${month}/${day}/${slug}`. */
  function PostDir(fileName: string): string {
    var parts := Split(fileName, '-');
    "dist/posts/" + Part(parts, 0) + "/" + Part(parts, 1) + "/" + Part(parts, 2) + "/" + Slug(fileName)
  }

  /** The title a post's page shows: none for a file without front matter. */
  function PageTitle(read: Extracted): string {
    if NoFrontMatter(read.frontMatter) then "" else ExtractTitle(read.frontMatter)
  }

  /** The page `createPosts` writes for the file at `path` below `posts`. */
  function PostPage(env: Env, postsList: seq<PostIDUrl>, path: string): (string, string)
    requires Valid(env)
  {
    var fileName := FileName(path);
    var parts := Split(fileName, '-');
    var read := Read(env, "posts/" + path);
    var postKey := PostKey(fileName);
    (PostDir(fileName) + "/index.html",
     CreateHtmlPostFromMarkdownToHTML(env, PageTitle(read), read.content,
                                      DatePart(parts, 0), DatePart(parts, 1), DatePart(parts, 2),
                                      NextUrl(postsList, postKey), PrevUrl(postsList, postKey)))
  }

  /** The pages of the files, in listing order. */
  function PostPages(env: Env, postsList: seq<PostIDUrl>, paths: seq<string>): seq<(string, string)>
    requires Valid(env)
    decreases |paths|
  {
    if paths == [] then []
    else PostPages(env, postsList, paths[..|paths| - 1]) + [PostPage(env, postsList, paths[|paths| - 1])]
  }

  /** The records of the files, in listing order. */
  function PostRecords(env: Env, postsList: seq<PostIDUrl>, paths: seq<string>): seq<PostInfo>
    decreases |paths|
  {
    if paths == [] then []
    else PostRecords(env, postsList, paths[..|paths| - 1]) + [PostFor(env, postsList, paths[|paths| - 1])]
  }

  /** `createPosts()` over the listing of `posts`: one record per Markdown
      file, in listing order, each post's page written at its URL's
      directory, with links to its neighbours in the index. */
  method CreatePosts(site: Site, env: Env, postsTree: seq<Entry>) returns (posts: seq<PostInfo>)
    requires Valid(env)
    modifies site
    ensures var postFiles := MarkdownFiles(postsTree, "");
            posts == PostRecords(env, PostsIndex(postFiles), postFiles)
            && site.files == Written(old(site.files), PostPages(env, PostsIndex(postFiles), postFiles))
  {
    var listed := FindMarkdownFiles(postsTree, "");
    var postsList := PostList(listed);
    posts := [];
    var postFiles := FindMarkdownFiles(postsTree, "");
    ghost var before := site.files;
    for i := 0 to |postFiles|
      invariant posts == PostRecords(env, postsList, postFiles[..i])
      invariant site.files == Written(before, PostPages(env, postsList, postFiles[..i]))
    {
      var post := WritePost(site, env, postsList, postFiles[i]);
      posts := posts + [post];
      PostsStep(env, postsList, postFiles, i);
      WrittenSnoc(before, PostPages(env, postsList, postFiles[..i]), PostPage(env, postsList, postFiles[i]));
    }
    assert postFiles[..|postFiles|] == postFiles;
  }

  lemma PostsStep(env: Env, postsList: seq<PostIDUrl>, paths: seq<string>, i: nat)
    requires Valid(env) && i < |paths|
    ensures PostPages(env, postsList, paths[..i + 1])
            == PostPages(env, postsList, paths[..i]) + [PostPage(env, postsList, paths[i])]
    ensures PostRecords(env, postsList, paths[..i + 1])
            == PostRecords(env, postsList, paths[..i]) + [PostFor(env, postsList, paths[i])]
  {
    assert paths[..i + 1] == paths[..i] + [paths[i]];
    PostsSnoc(env, postsList, paths[..i], paths[i]);
  }

  /** One more file adds its page and its record at the end. */
  lemma PostsSnoc(env: Env, postsList: seq<PostIDUrl>, paths: seq<string>, path: string)
    requires Valid(env)
    ensures PostPages(env, postsList, paths + [path])
            == PostPages(env, postsList, paths) + [PostPage(env, postsList, path)]
    ensures PostRecords(env, postsList, paths + [path])
            == PostRecords(env, postsList, paths) + [PostFor(env, postsList, path)]
  {
    assert (paths + [path])[..|paths|] == paths;
  }

  /** One turn of `createPosts`' loop: the post's page written, its record returned. */
  method WritePost(site: Site, env: Env, postsList: seq<PostIDUrl>, filePath: string) returns (post: PostInfo)
    requires Valid(env)
    modifies site
    ensures post == PostFor(env, postsList, filePath)
    ensures var page := PostPage(env, postsList, filePath);
            site.files == old(site.files)[page.0 := page.1]
  {
    var fileName := FileName(filePath);
    var parts := Split(fileName, '-');
    var year, month, day := DatePart(parts, 0), DatePart(parts, 1), DatePart(parts, 2);
    var url := PostUrl(fileName);
    var outputDir := PostDir(fileName);
    var read := ReadContentAndFrontMatter(env.files, "posts/" + filePath, env.yaml, env.toml, MaxLength(env));
    var title := ExtractTitle(read.frontMatter);
    var postKey := PostKey(fileName);
    var postDate := FormatDateString(year, month, day, "-");
    var currentIndex := FindIndex(postsList, postKey);
    var nextUrl := UrlAt(postsList, currentIndex - 1);
    var prevUrl := UrlAt(postsList, currentIndex + 1);
    var pageTitle := if NoFrontMatter(read.frontMatter) then "" else title;
    assert pageTitle == PageTitle(read);
    assert nextUrl == NextUrl(postsList, postKey) && prevUrl == PrevUrl(postsList, postKey);
    site.Write(outputDir + "/index.html",
               CreateHtmlPostFromMarkdownToHTML(env, pageTitle, read.content, year, month, day, nextUrl, prevUrl));
    post := PostInfo(postKey, postDate, title, read.content, url, nextUrl, prevUrl);
  }

  /** Where `findIndex` finds the key, the newer neighbour is the entry
      before it and the older one the entry after it, with nothing past the
      ends; where it does not, `postsList[-2]` is nothing and `postsList[0]`
      is the older neighbour. */
  lemma NeighbourLinks(postsList: seq<PostIDUrl>, key: string)
    ensures var r := FindIndex(postsList, key);
            r >= 0 ==> NextUrl(postsList, key) == (if r == 0 then None else Some(postsList[r - 1].url))
                       && PrevUrl(postsList, key)
                          == (if r + 1 < |postsList| then Some(postsList[r + 1].url) else None)
    ensures FindIndex(postsList, key) == -1 ==>
              NextUrl(postsList, key) == None
              && PrevUrl(postsList, key) == (if postsList == [] then None else Some(postsList[0].url))
  {
  }

  /** Every listed post's key is in the index, so its links come from its
      own place there: the first entry with its key. */
  lemma PostKeyIndexed(postFiles: seq<string>, i: nat)
    requires i < |postFiles|
    ensures var key := PostKey(FileName(postFiles[i]));
            var r := FindIndex(PostsIndex(postFiles), key);
            0 <= r && PostsIndex(postFiles)[r].postKey == key
  {
    var derived := DeriveAll(postFiles);
    var index := PostsIndex(postFiles);
    SortDescPermutation(derived, KeyOf);
    assert derived[i] in multiset(derived);
    assert derived[i] in index;
    var j :| 0 <= j < |index| && index[j] == derived[i];
    assert index[j].postKey == PostKey(FileName(postFiles[i]));
  }

  /** In a newest-first index, an entry whose key differs from its
      predecessor's is the first with that key. */
  lemma FirstOfKey(postsList: seq<PostIDUrl>, i: nat)
    requires SortedDesc(postsList, KeyOf) && i < |postsList|
    requires i == 0 || postsList[i - 1].postKey != postsList[i].postKey
    ensures FindIndex(postsList, postsList[i].postKey) == i
  {
    var key := postsList[i].postKey;
    forall j | 0 <= j < i ensures postsList[j].postKey != key {
      if postsList[j].postKey == key {
        assert LexLe(KeyOf(postsList[i]), KeyOf(postsList[i - 1]));
        if j < i - 1 {
          assert LexLe(KeyOf(postsList[i - 1]), KeyOf(postsList[j]));
        }
        LexLeAntisymmetric(postsList[i].postKey, postsList[i - 1].postKey);
      }
    }
    FindIndexIs(postsList, key, i);
  }

  lemma {:induction false} FindIndexIs(postsList: seq<PostIDUrl>, key: string, i: nat)
    requires i < |postsList| && postsList[i].postKey == key
    requires forall j :: 0 <= j < i ==> postsList[j].postKey != key
    ensures FindIndex(postsList, key) == i
  {
    assert FindIndex(postsList, key) != -1;
  }

  /** Two neighbouring entries of a newest-first index with keys of their
      own link to each other: the older one's newer link is the newer one's
      URL, and the newer one's older link is the older one's URL. */
  lemma AdjacentLinks(postsList: seq<PostIDUrl>, i: nat)
    requires SortedDesc(postsList, KeyOf) && i + 1 < |postsList|
    requires i == 0 || postsList[i - 1].postKey != postsList[i].postKey
    requires postsList[i].postKey != postsList[i + 1].postKey
    ensures PrevUrl(postsList, postsList[i].postKey) == Some(postsList[i + 1].url)
    ensures NextUrl(postsList, postsList[i + 1].postKey) == Some(postsList[i].url)
  {
    FirstOfKey(postsList, i);
    FirstOfKey(postsList, i + 1);
  }

  /** Posts sharing a key all link to the neighbours of the first index
      entry with that key, and their records differ from the page only in
      the title: the page's title is empty when the front matter sets
      `noFrontMatter`, the record's is always the extracted title. */
  lemma PostRecordLinks(env: Env, postsList: seq<PostIDUrl>, path: string, other: string)
    requires PostKey(FileName(path)) == PostKey(FileName(other))
    ensures PostFor(env, postsList, path).nextUrl == PostFor(env, postsList, other).nextUrl
    ensures PostFor(env, postsList, path).prevUrl == PostFor(env, postsList, other).prevUrl
    ensures var read := Read(env, "posts/" + path);
            PostFor(env, postsList, path).title == ExtractTitle(read.frontMatter)
            && (NoFrontMatter(read.frontMatter) ==> PageTitle(read) == "")
            && (!NoFrontMatter(read.frontMatter) ==> PageTitle(read) == PostFor(env, postsList, path).title)
  {
  }

  // ---------------------------------------------------------------------------
  // pages and the index

  /** `relativePath ? \`dist/${relativePath}\` : "dist"`. */
  function OutputDir(rel: string): (r: string)
    ensures StartsWith(r, "dist")
  {
    if rel == [] then "dist" else "dist/" + rel
  }

  /** Both placeholders expanded: the post list first, then the latest
      posts in what that gives. */
  function Expand(env: Env, content: string, posts: seq<PostInfo>): string {
    IncludeLatestPostsPartial(env, IncludePostListPartial(content, posts), posts)
  }

  /** The page `writePageFromMarkdown` writes for the entry `name` read from
      `sourcePath`: named after the entry without its first `.md`. */
  function MarkdownPage(env: Env, sourcePath: string, name: string, rel: string,
                        posts: seq<PostInfo>): (string, string)
  {
    var read := Read(env, sourcePath);
    (OutputDir(rel) + "/" + ReplaceFirst(name, ".md", "") + ".html",
     CreateHtmlPageFromMarkdown(env, ExtractTitle(read.frontMatter), Expand(env, read.content, posts)))
  }

  /** The page `writePageFromJSX` writes: the component's HTML in the page
      shell, titled with the entry's name without its first `.jsx`. */
  function JsxPage(env: Env, sourcePath: string, name: string, rel: string,
                   posts: seq<PostInfo>): (string, string)
  {
    var pageName := ReplaceFirst(name, ".jsx", "");
    (OutputDir(rel) + "/" + pageName + ".html", PageOf(env, pageName, env.jsx(sourcePath, posts)))
  }

  /** What one entry of a page directory contributes: nothing for `posts`,
      the pages of a subdirectory, one page for a `.md` or `.jsx` file. */
  function EntryWrites(env: Env, e: Entry, sourceDir: string, rel: string,
                       posts: seq<PostInfo>): seq<(string, string)>
    decreases e, 1
  {
    var sourcePath := sourceDir + "/" + e.name;
    if e.name == Reserved then []
    else match e
      case Directory(name, entries) => PageWrites(env, entries, sourcePath, RelPath(rel, name), posts)
      case File(name) =>
        if EndsWith(name, ".md") then [MarkdownPage(env, sourcePath, name, rel, posts)]
        else if EndsWith(name, ".jsx") then [JsxPage(env, sourcePath, name, rel, posts)]
        else []
      case Symlink(_) => []
  }

  /** The writes of `processPageDirectory(sourceDir, rel, posts)` over the
      listing of `sourceDir`, in listing order. */
  function PageWrites(env: Env, entries: seq<Entry>, sourceDir: string, rel: string,
                      posts: seq<PostInfo>): seq<(string, string)>
    decreases entries, 0
  {
    if entries == [] then []
    else EntryWrites(env, entries[0], sourceDir, rel, posts) + PageWrites(env, entries[1..], sourceDir, rel, posts)
  }

  /** `writePageFromMarkdown(sourcePath, dirEntry, relativePath, posts)`. */
  method WritePageFromMarkdown(site: Site, env: Env, sourcePath: string, name: string, rel: string,
                               posts: seq<PostInfo>)
    modifies site
    ensures var w := MarkdownPage(env, sourcePath, name, rel, posts);
            site.files == old(site.files)[w.0 := w.1]
  {
    var pageName := ReplaceFirst(name, ".md", "");
    var read := ReadContentAndFrontMatter(env.files, sourcePath, env.yaml, env.toml, MaxLength(env));
    var fullContent := IncludePostListPartial(read.content, posts);
    fullContent := IncludeLatestPostsPartial(env, fullContent, posts);
    var title := ExtractTitle(read.frontMatter);
    var outputDir := OutputDir(rel);
    site.Write(outputDir + "/" + pageName + ".html", CreateHtmlPageFromMarkdown(env, title, fullContent));
  }

  /** `writePageFromJSX(sourcePath, dirEntry, relativePath, posts)`. */
  method WritePageFromJsx(site: Site, env: Env, sourcePath: string, name: string, rel: string,
                          posts: seq<PostInfo>)
    modifies site
    ensures var w := JsxPage(env, sourcePath, name, rel, posts);
            site.files == old(site.files)[w.0 := w.1]
  {
    var pageName := ReplaceFirst(name, ".jsx", "");
    var pageHtml := env.jsx(sourcePath, posts);
    var outputDir := OutputDir(rel);
    site.Write(outputDir + "/" + pageName + ".html", PageOf(env, pageName, pageHtml));
  }

  /** `processPageDirectory(sourceDir, relativePath, posts)` over the listing
      of `sourceDir`. */
  method ProcessPageDirectory(site: Site, env: Env, entries: seq<Entry>, sourceDir: string, rel: string,
                              posts: seq<PostInfo>)
    modifies site
    ensures site.files == Written(old(site.files), PageWrites(env, entries, sourceDir, rel, posts))
    decreases entries, 0
  {
    ghost var before := site.files;
    for i := 0 to |entries|
      invariant site.files == Written(before, PageWrites(env, entries[..i], sourceDir, rel, posts))
    {
      ghost var done := PageWrites(env, entries[..i], sourceDir, rel, posts);
      ProcessEntry(site, env, entries[i], sourceDir, rel, posts);
      WrittenAppend(before, done, EntryWrites(env, entries[i], sourceDir, rel, posts));
      PageWritesStep(env, entries, i, sourceDir, rel, posts);
    }
    assert entries[..|entries|] == entries;
  }

  /** One turn of `processPageDirectory`'s loop. */
  method ProcessEntry(site: Site, env: Env, dirEntry: Entry, sourceDir: string, rel: string,
                      posts: seq<PostInfo>)
    modifies site
    ensures site.files == Written(old(site.files), EntryWrites(env, dirEntry, sourceDir, rel, posts))
    decreases dirEntry, 1
  {
    var sourcePath := sourceDir + "/" + dirEntry.name;
    var newRelativePath := RelPath(rel, dirEntry.name);
    if dirEntry.name == Reserved {
      return;
    }
    if dirEntry.Directory? {
      ProcessPageDirectory(site, env, dirEntry.entries, sourcePath, newRelativePath, posts);
    } else if dirEntry.File? && EndsWith(dirEntry.name, ".md") {
      WritePageFromMarkdown(site, env, sourcePath, dirEntry.name, rel, posts);
      WrittenOne(old(site.files), MarkdownPage(env, sourcePath, dirEntry.name, rel, posts));
    } else if dirEntry.File? && EndsWith(dirEntry.name, ".jsx") {
      WritePageFromJsx(site, env, sourcePath, dirEntry.name, rel, posts);
      WrittenOne(old(site.files), JsxPage(env, sourcePath, dirEntry.name, rel, posts));
    }
  }

  lemma WrittenOne(files: map<string, string>, w: (string, string))
    ensures Written(files, [w]) == files[w.0 := w.1]
  {
    assert [w][..0] == [];
  }

  /** One more entry adds its writes at the end. */
  lemma PageWritesStep(env: Env, entries: seq<Entry>, i: nat, sourceDir: string, rel: string,
                       posts: seq<PostInfo>)
    requires i < |entries|
    ensures PageWrites(env, entries[..i + 1], sourceDir, rel, posts)
         == PageWrites(env, entries[..i], sourceDir, rel, posts) + EntryWrites(env, entries[i], sourceDir, rel, posts)
  {
    assert entries[..i + 1] == entries[..i] + [entries[i]];
    PageWritesAppend(env, entries[..i], [entries[i]], sourceDir, rel, posts);
  }

  lemma {:induction false} PageWritesAppend(env: Env, a: seq<Entry>, b: seq<Entry>, sourceDir: string, rel: string,
                                            posts: seq<PostInfo>)
    ensures PageWrites(env, a + b, sourceDir, rel, posts)
         == PageWrites(env, a, sourceDir, rel, posts) + PageWrites(env, b, sourceDir, rel, posts)
    decreases |a|
  {
    if a == [] {
      assert a + b == b;
    } else {
      var c := a + b;
      assert c[0] == a[0] && c[1..] == a[1..] + b;
      PageWritesAppend(env, a[1..], b, sourceDir, rel, posts);
      var x := EntryWrites(env, a[0], sourceDir, rel, posts);
      var y := PageWrites(env, a[1..], sourceDir, rel, posts);
      var z := PageWrites(env, b, sourceDir, rel, posts);
      AppendAssociates(x, y, z);
    }
  }

  /** A page's path: below `dist`, ending in `.html`. */
  predicate IsOutputPath(p: string) {
    StartsWith(p, "dist/") && EndsWith(p, ".html")
  }

  lemma OutputPath(rel: string, pageName: string)
    ensures IsOutputPath(OutputDir(rel) + "/" + pageName + ".html")
  {
    var d := OutputDir(rel) + "/";
    assert d[..5] == "dist/";
    ConcatEnds(d, pageName + ".html");
    ConcatEnds(d + pageName, ".html");
    assert d + pageName + ".html" == d + (pageName + ".html");
    assert (d + (pageName + ".html"))[..5] == d[..5];
  }

  /** Every write of `w` is to a page path. */
  predicate AllOutputPaths(w: seq<(string, string)>) {
    forall k :: 0 <= k < |w| ==> IsOutputPath(w[k].0)
  }

  lemma AllOutputPathsAppend(x: seq<(string, string)>, y: seq<(string, string)>)
    requires AllOutputPaths(x) && AllOutputPaths(y)
    ensures AllOutputPaths(x + y)
  {
    forall k | 0 <= k < |x + y| ensures IsOutputPath((x + y)[k].0) {
      if k >= |x| {
        assert (x + y)[k] == y[k - |x|];
      }
    }
  }

  /** Every page `processPageDirectory` writes lies below `dist` and ends
      in `.html`. */
  lemma {:induction false} PageWritesPaths(env: Env, entries: seq<Entry>, sourceDir: string, rel: string,
                                           posts: seq<PostInfo>)
    ensures AllOutputPaths(PageWrites(env, entries, sourceDir, rel, posts))
    decreases entries, 0
  {
    if entries != [] {
      var x := EntryWrites(env, entries[0], sourceDir, rel, posts);
      var y := PageWrites(env, entries[1..], sourceDir, rel, posts);
      EntryWritesPaths(env, entries[0], sourceDir, rel, posts);
      PageWritesPaths(env, entries[1..], sourceDir, rel, posts);
      AllOutputPathsAppend(x, y);
    }
  }

  lemma {:induction false} EntryWritesPaths(env: Env, e: Entry, sourceDir: string, rel: string,
                                            posts: seq<PostInfo>)
    ensures AllOutputPaths(EntryWrites(env, e, sourceDir, rel, posts))
    decreases e, 1
  {
    var sourcePath := sourceDir + "/" + e.name;
    if e.name != Reserved {
      match e
      case Directory(name, entries) =>
        PageWritesPaths(env, entries, sourcePath, RelPath(rel, name), posts);
      case File(name) =>
        if EndsWith(name, ".md") {
          var w := MarkdownPage(env, sourcePath, name, rel, posts);
          OutputPath(rel, ReplaceFirst(name, ".md", ""));
          assert IsOutputPath(w.0);
        } else if EndsWith(name, ".jsx") {
          var w := JsxPage(env, sourcePath, name, rel, posts);
          OutputPath(rel, ReplaceFirst(name, ".jsx", ""));
          assert IsOutputPath(w.0);
        }
      case Symlink(_) =>
    }
  }

  /** A Markdown page is named after its file: `about.md` below `pages/a`
      becomes `dist/a/about.html`. */
  lemma MarkdownPageName(env: Env, sourcePath: string, stem: string, rel: string, posts: seq<PostInfo>)
    requires '.' !in stem
    ensures MarkdownPage(env, sourcePath, stem + ".md", rel, posts).0 == OutputDir(rel) + "/" + stem + ".html"
  {
    ReplaceFirstExtension(stem);
  }

  /** The `posts` entry of the pages directory, file or directory, writes nothing. */
  lemma PostsEntrySkipped(env: Env, e: Entry, sourceDir: string, rel: string, posts: seq<PostInfo>)
    requires e.name == Reserved
    ensures EntryWrites(env, e, sourceDir, rel, posts) == []
  {
  }

  /** `createPages(posts)` over the listing of `pages`. */
  method CreatePages(site: Site, env: Env, pagesTree: seq<Entry>, posts: seq<PostInfo>)
    modifies site
    ensures site.files == Written(old(site.files), PageWrites(env, pagesTree, "pages", "", posts))
  {
    ProcessPageDirectory(site, env, pagesTree, "pages", "", posts);
  }

  /** The index page: `index.md`'s body with both placeholders expanded,
      under its front matter's title; `None` where reading the file or
      parsing its TOML front matter throws. */
  function IndexPage(env: Env, posts: seq<PostInfo>): (r: Option<string>)
    ensures r.Some? <==> IndexMd in env.files && env.toml(env.files[IndexMd]).Some?
  {
    if IndexMd !in env.files then None
    else match env.toml(env.files[IndexMd])
      case None => None
      case Some(parsed) =>
        Some(CreateHtmlPageFromMarkdown(env, ExtractTitle(Some(parsed.attrs)), Expand(env, parsed.body, posts)))
  }

  const IndexMd: string := "index.md"
  const IndexHtml: string := "dist/index.html"

  /** `writeIndex(posts)`: `ok` is false where the source throws, and then
      nothing is written. */
  method WriteIndex(site: Site, env: Env, posts: seq<PostInfo>) returns (ok: bool)
    modifies site
    ensures ok <==> IndexPage(env, posts).Some?
    ensures ok ==> site.files == old(site.files)[IndexHtml := IndexPage(env, posts).value]
    ensures !ok ==> site.files == old(site.files)
  {
    if IndexMd !in env.files {
      return false;
    }
    var indexContent := env.files[IndexMd];
    var extracted := env.toml(indexContent);
    if extracted.None? {
      return false;
    }
    var title := ExtractTitle(Some(extracted.value.attrs));
    indexContent := extracted.value.body;
    indexContent := IncludePostListPartial(indexContent, posts);
    indexContent := IncludeLatestPostsPartial(env, indexContent, posts);
    site.Write(IndexHtml, CreateHtmlPageFromMarkdown(env, title, indexContent));
    ok := true;
  }

  /** Text without placeholders is shown as written, on pages and the index alike. */
  lemma ExpandPlain(env: Env, content: string, posts: seq<PostInfo>)
    requires FirstMatch(content, PostsList).None? && FirstMatch(content, LatestPosts).None?
    ensures Expand(env, content, posts) == content
  {
  }

  /** The index page carries the index's front-matter title as its
      document title, and shows the blog's navigation before the title
      heading and the rendered, expanded body. */
  lemma IndexPageShows(env: Env, posts: seq<PostInfo>)
    requires IndexPage(env, posts).Some?
    ensures var parsed := env.toml(env.files[IndexMd]).value;
            var title := ExtractTitle(Some(parsed.attrs));
            var r := IndexPage(env, posts).value;
            Contains(r, TitleElement(title))
            && Before(r, RenderNav(env), "<h1>" + title + "</h1>\n" + Render(env, Expand(env, parsed.body, posts)))
  {
    var parsed := env.toml(env.files[IndexMd]).value;
    var title := ExtractTitle(Some(parsed.attrs));
    PageOfShows(env, title, "<h1>" + title + "</h1>\n" + Render(env, Expand(env, parsed.body, posts)));
  }

  lemma AppendAssociates<T>(x: seq<T>, y: seq<T>, z: seq<T>)
    ensures x + (y + z) == x + y + z
  {
  }
}
