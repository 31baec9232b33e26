/**
 * The HTML and Markdown fragments of the generator: the post list, the
 * `<article>` block of a post, the previous/next navigation line, the
 * footer, and the pages wrapped in the page shell.
 */
module RenderMarkdown {
  import opened Wrappers
  import opened Strings
  import opened Helpers
  import opened Posts
  import opened I18n
  import opened HtmlTemplate
  import opened Environment

  // ---------------------------------------------------------------------------
  // files rendered from Markdown

  /** `renderMarkdownFileToHtml(path)`: the file rendered, or "" when it
      cannot be read. */
  function RenderMarkdownFileToHtml(env: Env, path: string): (r: string)
    ensures path !in env.files ==> r == ""
    ensures path in env.files ==> r == Render(env, env.files[path])
  {
    if path in env.files then Render(env, env.files[path]) else ""
  }

  /** `renderNav()`: the blog's `nav.md`. */
  function RenderNav(env: Env): string {
    RenderMarkdownFileToHtml(env, "nav.md")
  }

  const FooterOpen: string := "<footer>\n  "
  const FooterClose: string := "\n</footer>\n"

  /** `renderFooter()`: empty exactly when the hide flag is the string
      `"true"`, otherwise `footer.md` inside a `<footer>` element. */
  function RenderFooter(env: Env): (r: string)
    ensures r == "" <==> env.hideFooter == Some("true")
    ensures env.hideFooter != Some("true") ==>
              r == FooterOpen + RenderMarkdownFileToHtml(env, "footer.md") + FooterClose
  {
    var markdown := RenderMarkdownFileToHtml(env, "footer.md");
    if env.hideFooter == Some("true") then ""
    else FooterOpen + markdown + FooterClose
  }

  // ---------------------------------------------------------------------------
  // a fragment per post, concatenated in order

  /** The text a `for ... of posts` loop accumulates with `+=`. */
  function Concat(f: PostInfo -> string, posts: seq<PostInfo>): string
    decreases |posts|
  {
    if posts == [] then "" else Concat(f, posts[..|posts| - 1]) + f(posts[|posts| - 1])
  }

  /** Accumulating over two lists in turn is accumulating over both. */
  lemma {:induction false} ConcatAppend(f: PostInfo -> string, a: seq<PostInfo>, b: seq<PostInfo>)
    ensures Concat(f, a + b) == Concat(f, a) + Concat(f, b)
    decreases |b|
  {
    if b == [] {
      assert a + b == a;
    } else {
      var c := a + b;
      assert c[..|c| - 1] == a + b[..|b| - 1];
      ConcatAppend(f, a, b[..|b| - 1]);
    }
  }

  /** A list's text is the text before an element, the element's fragment,
      and the text after it. */
  lemma ConcatSplit(f: PostInfo -> string, posts: seq<PostInfo>, i: nat)
    requires i < |posts|
    ensures Concat(f, posts) == Concat(f, posts[..i]) + f(posts[i]) + Concat(f, posts[i + 1..])
  {
    var a := posts[..i + 1];
    var b := posts[i + 1..];
    assert posts == a + b;
    ConcatAppend(f, a, b);
    assert a[..|a| - 1] == posts[..i];
    assert Concat(f, a) == Concat(f, posts[..i]) + f(posts[i]);
  }

  /** Each post's fragment appears, and the fragments of two posts appear in
      the posts' order. */
  lemma ConcatOrder(f: PostInfo -> string, posts: seq<PostInfo>, i: nat, j: nat)
    requires i < j < |posts|
    ensures Before(Concat(f, posts), f(posts[i]), f(posts[j]))
  {
    var front := posts[..j];
    ConcatSplit(f, posts, j);
    ConcatSplit(f, front, i);
    assert front[..i] == posts[..i] && front[i] == posts[i] && front[i + 1..] == posts[i + 1..j];
    BeforePieces(Concat(f, posts[..i]), f(posts[i]), Concat(f, posts[i + 1..j]), f(posts[j]),
                 Concat(f, posts[j + 1..]));
  }

  lemma ConcatEach(f: PostInfo -> string, posts: seq<PostInfo>, i: nat)
    requires i < |posts|
    ensures Contains(Concat(f, posts), f(posts[i]))
  {
    ConcatSplit(f, posts, i);
    ContainsPiece(Concat(f, posts[..i]), f(posts[i]), Concat(f, posts[i + 1..]));
  }

  // ---------------------------------------------------------------------------
  // the post list

  /** One line of the post list: the date, and the title linked to the URL. */
  function PostListItem(p: PostInfo): string {
    "- <small>" + p.postDate + "</small> [" + p.title + "](" + p.url + ")\n"
  }

  function PostListMarkdown(posts: seq<PostInfo>): string {
    Concat(PostListItem, posts)
  }

  /** `createPostListMarkdown(posts)`. */
  method CreatePostListMarkdown(posts: seq<PostInfo>) returns (postList: string)
    ensures postList == PostListMarkdown(posts)
  {
    postList := "";
    for i := 0 to |posts|
      invariant postList == PostListMarkdown(posts[..i])
    {
      assert posts[..i + 1][..i] == posts[..i];
      postList := postList + PostListItem(posts[i]);
    }
    assert posts[..|posts|] == posts;
  }

  /** An empty list gives no text; otherwise every post has its line, in the
      order of the list. */
  lemma PostListLines(posts: seq<PostInfo>, i: nat, j: nat)
    ensures posts == [] ==> PostListMarkdown(posts) == ""
    ensures i < |posts| ==> Contains(PostListMarkdown(posts), PostListItem(posts[i]))
    ensures i < j < |posts| ==>
              Before(PostListMarkdown(posts), PostListItem(posts[i]), PostListItem(posts[j]))
  {
    if i < |posts| {
      ConcatEach(PostListItem, posts, i);
    }
    if i < j < |posts| {
      ConcatOrder(PostListItem, posts, i, j);
    }
  }

  /** The post list of two lists in turn is the two post lists in turn. */
  lemma PostListAppend(a: seq<PostInfo>, b: seq<PostInfo>)
    ensures PostListMarkdown(a + b) == PostListMarkdown(a) + PostListMarkdown(b)
  {
    ConcatAppend(PostListItem, a, b);
  }

  // ---------------------------------------------------------------------------
  // the article block

  const ArticleOpen: string := "\n<article>\n  <p><em>"
  const ArticleTitle: string := "</em></p>\n  <h1>"
  const ArticleBody: string := "</h1>\n  "
  const ArticleClose: string := "</article>\n"

  /** `createHtmlPostFromMarkdown(title, markdown, year, month, day)`: the
      date as `year-month-day`, the title as a heading, then the rendered body. */
  function CreateHtmlPostFromMarkdown(env: Env, title: string, markdown: string,
                                      year: string, month: string, day: string): (r: string)
    ensures r == ArticleOpen + (year + "-" + month + "-" + day)
                 + ArticleTitle + title + ArticleBody + Render(env, markdown) + ArticleClose
  {
    ArticleOpen + FormatDateString(year, month, day, "-")
    + ArticleTitle + title + ArticleBody + Render(env, markdown) + ArticleClose
  }

  // ---------------------------------------------------------------------------
  // the latest posts

  /** An element of `const [year, month, day] = parts`: `undefined` past the
      end, which `formatDateString`'s `join` prints as "". */
  function DatePart(parts: seq<string>, i: nat): string {
    if i < |parts| then parts[i] else ""
  }

  /** One post of `createLatestPostsMarkdown`: its article, dated by the parts
      of its `postDate`. */
  function LatestPost(env: Env, p: PostInfo): string {
    var parts := Split(p.postDate, '-');
    CreateHtmlPostFromMarkdown(env, p.title, p.content, DatePart(parts, 0), DatePart(parts, 1), DatePart(parts, 2))
  }

  function LatestPostsMarkdown(env: Env, posts: seq<PostInfo>): string {
    Concat(p => LatestPost(env, p), posts)
  }

  /** `createLatestPostsMarkdown(posts)`. */
  method CreateLatestPostsMarkdown(env: Env, posts: seq<PostInfo>) returns (postsContent: string)
    ensures postsContent == LatestPostsMarkdown(env, posts)
  {
    postsContent := "";
    for i := 0 to |posts|
      invariant postsContent == LatestPostsMarkdown(env, posts[..i])
    {
      assert posts[..i + 1][..i] == posts[..i];
      var parts := Split(posts[i].postDate, '-');
      postsContent := postsContent + CreateHtmlPostFromMarkdown(env, posts[i].title, posts[i].content,
        DatePart(parts, 0), DatePart(parts, 1), DatePart(parts, 2));
    }
    assert posts[..|posts|] == posts;
  }

  /** A post dated `formatDateString(year, month, day)`, with no dash in the
      three parts, shows that same date in its article. */
  lemma LatestPostDate(env: Env, p: PostInfo, year: string, month: string, day: string)
    requires p.postDate == FormatDateString(year, month, day, "-")
    requires '-' !in year && '-' !in month && '-' !in day
    ensures LatestPost(env, p) == CreateHtmlPostFromMarkdown(env, p.title, p.content, year, month, day)
  {
    var parts := [year, month, day];
    assert parts[1..] == [month, day] && [month, day][1..] == [day];
    assert Join(parts, "-") == year + "-" + month + "-" + day;
    SplitJoin(parts, '-');
  }

  /** Every post has its article, in the order of the list. */
  lemma LatestPostsArticles(env: Env, posts: seq<PostInfo>, i: nat, j: nat)
    ensures i < |posts| ==> Contains(LatestPostsMarkdown(env, posts), LatestPost(env, posts[i]))
    ensures i < j < |posts| ==>
              Before(LatestPostsMarkdown(env, posts), LatestPost(env, posts[i]), LatestPost(env, posts[j]))
  {
    var f := p => LatestPost(env, p);
    if i < |posts| {
      ConcatEach(f, posts, i);
    }
    if i < j < |posts| {
      ConcatOrder(f, posts, i, j);
    }
  }

  // ---------------------------------------------------------------------------
  // the navigation line of a post

  /** A URL the template's `?:` takes: present and not empty. */
  predicate TruthyUrl(url: Option<string>) {
    url.Some? && url.value != ""
  }

  function PrevLink(url: string, labels: Labels): string {
    "<a href=\"" + url + "\">&#8592; " + labels.previous + "</a>"
  }

  function NextLink(url: string, labels: Labels): string {
    "<a href=\"" + url + "\">" + labels.next + " &#8594;</a>"
  }

  const NavRule: string := "<hr>\n    "

  /** The line appended below a post's article. */
  function NavLine(nextUrl: Option<string>, prevUrl: Option<string>, labels: Labels): string {
    NavRule
    + (if TruthyUrl(prevUrl) then PrevLink(prevUrl.value, labels) else "")
    + (if TruthyUrl(prevUrl) && TruthyUrl(nextUrl) then " | " else "")
    + (if TruthyUrl(nextUrl) then NextLink(nextUrl.value, labels) else "")
  }

  /** The four shapes of the navigation line: the link to the older post
      when there is one, then the separator when there are both, then the
      link to the newer post; the older one always comes first. */
  lemma NavLineCases(nextUrl: Option<string>, prevUrl: Option<string>, labels: Labels)
    ensures TruthyUrl(prevUrl) && TruthyUrl(nextUrl) ==>
              NavLine(nextUrl, prevUrl, labels)
                == NavRule + PrevLink(prevUrl.value, labels) + " | " + NextLink(nextUrl.value, labels)
              && Before(NavLine(nextUrl, prevUrl, labels), PrevLink(prevUrl.value, labels),
                        NextLink(nextUrl.value, labels))
    ensures TruthyUrl(prevUrl) && !TruthyUrl(nextUrl) ==>
              NavLine(nextUrl, prevUrl, labels) == NavRule + PrevLink(prevUrl.value, labels)
    ensures !TruthyUrl(prevUrl) && TruthyUrl(nextUrl) ==>
              NavLine(nextUrl, prevUrl, labels) == NavRule + NextLink(nextUrl.value, labels)
    ensures !TruthyUrl(prevUrl) && !TruthyUrl(nextUrl) ==> NavLine(nextUrl, prevUrl, labels) == NavRule
  {
    if TruthyUrl(prevUrl) && TruthyUrl(nextUrl) {
      var p, n := PrevLink(prevUrl.value, labels), NextLink(nextUrl.value, labels);
      assert NavRule + p + " | " + n + "" == NavRule + p + " | " + n;
      BeforePieces(NavRule, p, " | ", n, "");
    }
  }

  // ---------------------------------------------------------------------------
  // pages

  /** The page shell around `content`, with the blog's navigation and footer
      and no extra head elements or scripts. */
  function PageOf(env: Env, title: string, content: string): string {
    Page(Template(title, None, RenderNav(env), content, RenderFooter(env), None), ShellOf(env))
  }

  /** What a page shows: the title as the document title, the navigation,
      the content and the footer in that order. */
  lemma PageOfShows(env: Env, title: string, content: string)
    ensures Contains(PageOf(env, title, content), TitleElement(title))
    ensures Before(PageOf(env, title, content), RenderNav(env), content)
    ensures Before(PageOf(env, title, content), content, RenderFooter(env))
  {
    var t := Template(title, None, RenderNav(env), content, RenderFooter(env), None);
    PageTitle(t, ShellOf(env));
    PageOrder(t, ShellOf(env));
  }

  /** `createHtmlPageFromMarkdown(title, markdown)`: the title as a heading
      over the rendered body, in the page shell under the same title. */
  function CreateHtmlPageFromMarkdown(env: Env, title: string, markdown: string): (r: string)
    ensures r == PageOf(env, title, "<h1>" + title + "</h1>\n" + Render(env, markdown))
  {
    var body := Render(env, markdown);
    var content := "<h1>" + title + "</h1>\n" + body;
    PageOf(env, title, content)
  }

  /** `createHtmlPostFromMarkdownToHTML(title, markdown, year, month, day,
      nextUrl, prevUrl)`: the article and the navigation line in the page
      shell, the labels in the configured language. */
  function CreateHtmlPostFromMarkdownToHTML(env: Env, title: string, markdown: string,
                                            year: string, month: string, day: string,
                                            nextUrl: Option<string>, prevUrl: Option<string>): (r: string)
    requires Valid(env)
    ensures r == PageOf(env, title, CreateHtmlPostFromMarkdown(env, title, markdown, year, month, day)
                                    + NavLine(nextUrl, prevUrl, NavLabels(env)))
  {
    var content := CreateHtmlPostFromMarkdown(env, title, markdown, year, month, day);
    PageOf(env, title, content + NavLine(nextUrl, prevUrl, NavLabels(env)))
  }

  /** A post page starts with the document type, ends the document, and shows
      its article, then its navigation line, between the blog's navigation
      and footer. */
  lemma PostPageShows(env: Env, title: string, markdown: string, year: string, month: string, day: string,
                      nextUrl: Option<string>, prevUrl: Option<string>)
    requires Valid(env)
    ensures var r := CreateHtmlPostFromMarkdownToHTML(env, title, markdown, year, month, day, nextUrl, prevUrl);
            var article := CreateHtmlPostFromMarkdown(env, title, markdown, year, month, day);
            StartsWith(r, Opening(ShellOf(env))) && EndsWith(r, DocClose)
            && Contains(r, TitleElement(title))
            && Before(r, RenderNav(env), article + NavLine(nextUrl, prevUrl, NavLabels(env)))
            && Before(r, article + NavLine(nextUrl, prevUrl, NavLabels(env)), RenderFooter(env))
  {
    var article := CreateHtmlPostFromMarkdown(env, title, markdown, year, month, day);
    var content := article + NavLine(nextUrl, prevUrl, NavLabels(env));
    PageOfShows(env, title, content);
    PageEnds(Template(title, None, RenderNav(env), content, RenderFooter(env), None), ShellOf(env));
  }
}
