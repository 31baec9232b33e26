/**
 * `quickblog build`: check that the working directory is a blog, check the
 * public and page names, then write the site: posts, pages and the index,
 * from a cleaned `dist`.
 */
module Build {
  import opened Wrappers
  import opened Strings
  import opened Sorting
  import opened Posts
  import opened IngestFiles
  import opened I18n
  import opened Environment
  import opened WriteFiles

  /** A path the blog directory must hold, and whether as a directory. */
  datatype Required = Required(path: string, directory: bool)

  const RequiredPaths: seq<Required> :=
    [Required("posts", true), Required("pages", true), Required("index.md", false)]

  /** The report for one required path: the bare path when it is missing,
      a note on the wrong kind, nothing when it is right. */
  function Problem(req: Required, stat: map<string, Stat>): (r: Option<string>)
    ensures req.path !in stat <==> r == Some(req.path)
    ensures r.None? <==> req.path in stat && (if req.directory then stat[req.path].isDirectory
                                              else stat[req.path].isFile)
    ensures req.path in stat && r.Some? ==>
              r.value == req.path + (if req.directory then "/ (expected directory, found file)"
                                     else " (expected file, found directory)")
  {
    if req.path !in stat then Some(req.path)
    else if req.directory && !stat[req.path].isDirectory then Some(req.path + "/ (expected directory, found file)")
    else if !req.directory && !stat[req.path].isFile then Some(req.path + " (expected file, found directory)")
    else None
  }

  function Listed(o: Option<string>): seq<string> {
    if o.Some? then [o.value] else []
  }

  /** The reports of the required paths, in their order. */
  function Problems(reqs: seq<Required>, stat: map<string, Stat>): seq<string>
    decreases |reqs|
  {
    if reqs == [] then []
    else Problems(reqs[..|reqs| - 1], stat) + Listed(Problem(reqs[|reqs| - 1], stat))
  }

  /** `validateBlogDirectory()`: the list of what is missing, empty for a
      blog directory. */
  method ValidateBlogDirectory(stat: map<string, Stat>) returns (missing: seq<string>)
    ensures missing == Problems(RequiredPaths, stat)
  {
    missing := [];
    for i := 0 to |RequiredPaths|
      invariant missing == Problems(RequiredPaths[..i], stat)
    {
      var req := RequiredPaths[i];
      if req.path !in stat {
        missing := missing + [req.path];
      } else if req.directory && !stat[req.path].isDirectory {
        missing := missing + [req.path + "/ (expected directory, found file)"];
      } else if !req.directory && !stat[req.path].isFile {
        missing := missing + [req.path + " (expected file, found directory)"];
      }
      assert RequiredPaths[..i + 1][..i] == RequiredPaths[..i];
    }
    assert RequiredPaths[..|RequiredPaths|] == RequiredPaths;
  }

  /** A blog directory: `posts` and `pages` are directories and `index.md` a file. */
  predicate IsBlog(stat: map<string, Stat>) {
    && "posts" in stat && stat["posts"].isDirectory
    && "pages" in stat && stat["pages"].isDirectory
    && "index.md" in stat && stat["index.md"].isFile
  }

  /** The reports come in the order posts, pages, index.md. */
  lemma ProblemsOrder(stat: map<string, Stat>)
    ensures Problems(RequiredPaths, stat)
         == Listed(Problem(Required("posts", true), stat))
            + Listed(Problem(Required("pages", true), stat))
            + Listed(Problem(Required("index.md", false), stat))
  {
    var r := RequiredPaths;
    var a, b, c := Listed(Problem(r[0], stat)), Listed(Problem(r[1], stat)), Listed(Problem(r[2], stat));
    assert r[..2][..1] == r[..1] && r[..1][..0] == [] && r[..2][1] == r[1] && r[..1][0] == r[0];
    assert Problems(r[..1], stat) == a;
    assert Problems(r[..2], stat) == a + b;
    assert r[..2] == r[..|r| - 1];
    assert Problems(r, stat) == a + b + c;
  }

  /** Nothing is reported exactly for a blog directory. */
  lemma ValidIff(stat: map<string, Stat>)
    ensures Problems(RequiredPaths, stat) == [] <==> IsBlog(stat)
  {
    ProblemsOrder(stat);
  }

  /** No collision between the public and page names and no `posts` entry
      in either; a missing `public` directory is no collision. */
  predicate NoCollision(publicEntries: Option<seq<Entry>>, pageEntries: seq<Entry>) {
    publicEntries.None?
    || (Disjoint(Without(Names(publicEntries.value), GitKeep), Without(Names(pageEntries), GitKeep))
        && Reserved !in Names(publicEntries.value) && Reserved !in Names(pageEntries))
  }

  /** How the build ends: the process exits on a directory that is no blog
      and on a name collision; an index that cannot be read or parsed
      throws after posts and pages are written. */
  datatype Outcome =
    | NotABlog(missing: seq<string>)
    | NameCollision(name: string)
    | IndexFailed
    | Built(posts: seq<PostInfo>)

  /** The posts in the order pages and the index see them: newest key first. */
  function SortedPosts(env: Env, postsTree: seq<Entry>): seq<PostInfo> {
    var postFiles := MarkdownFiles(postsTree, "");
    SortDesc(PostRecords(env, PostsIndex(postFiles), postFiles), Key)
  }

  /** The files after posts and pages are written into a cleaned `dist`. */
  function PostsAndPages(env: Env, files: map<string, string>, postsTree: seq<Entry>,
                         pagesTree: seq<Entry>): map<string, string>
    requires Valid(env)
  {
    var postFiles := MarkdownFiles(postsTree, "");
    var withPosts := Written(WithoutDist(files), PostPages(env, PostsIndex(postFiles), postFiles));
    Written(withPosts, PageWrites(env, pagesTree, "pages", "", SortedPosts(env, postsTree)))
  }

  /** `buildBlog()` over the blog's stat map and listings (`public` may be
      missing). */
  method BuildBlog(site: Site, env: Env, stat: map<string, Stat>, publicEntries: Option<seq<Entry>>,
                   postsTree: seq<Entry>, pagesTree: seq<Entry>)
    returns (outcome: Outcome)
    requires Valid(env)
    modifies site
    ensures !IsBlog(stat) ==> outcome == NotABlog(Problems(RequiredPaths, stat)) && site.files == old(site.files)
    ensures IsBlog(stat) && !NoCollision(publicEntries, pagesTree) ==>
              outcome.NameCollision? && site.files == old(site.files)
    ensures IsBlog(stat) && NoCollision(publicEntries, pagesTree) ==>
              var sorted := SortedPosts(env, postsTree);
              var written := PostsAndPages(env, old(site.files), postsTree, pagesTree);
              match IndexPage(env, sorted)
              case None => outcome == IndexFailed && site.files == written
              case Some(index) => outcome == Built(sorted) && site.files == written[IndexHtml := index]
  {
    var missing := ValidateBlogDirectory(stat);
    ValidIff(stat);
    if |missing| > 0 {
      return NotABlog(missing);
    }
    var collision := CheckNamingCollisionsPublicAndPages(publicEntries, Some(pagesTree));
    if collision.Some? {
      return NameCollision(collision.value);
    }
    var lang := CheckLangSupport(DefaultLang(env.lang), env.dictionary);
    site.CleanUpDist();
    var posts := CreatePosts(site, env, postsTree);
    posts := SortDesc(posts, Key);
    CreatePages(site, env, pagesTree, posts);
    var ok := WriteIndex(site, env, posts);
    outcome := if ok then Built(posts) else IndexFailed;
  }

  /** The posts pages and the index see are ordered newest key first and
      are the records `createPosts` made, each once. */
  lemma SortedPostsOrdered(env: Env, postsTree: seq<Entry>)
    ensures SortedDesc(SortedPosts(env, postsTree), Key)
    ensures var postFiles := MarkdownFiles(postsTree, "");
            multiset(SortedPosts(env, postsTree)) == multiset(PostRecords(env, PostsIndex(postFiles), postFiles))
  {
    var postFiles := MarkdownFiles(postsTree, "");
    var records := PostRecords(env, PostsIndex(postFiles), postFiles);
    SortDescSorted(records, Key);
    SortDescPermutation(records, Key);
  }
}
