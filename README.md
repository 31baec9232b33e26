# deno-quickblog, modelled in Dafny

deno-quickblog is a static blog generator. It reads Markdown posts named
`YYYY-MM-DD-slug.md` below `posts/`, Markdown and JSX pages below `pages/`
and an `index.md`. It writes one HTML page per post to
`dist/posts/Y/M/D/slug/index.html`. Each post page links to its newer and
older neighbour. It writes one HTML page per page file below `dist/`, and
`dist/index.html`. Pages and the index may hold two placeholders:
`{{POSTS_LIST}}` (a Markdown list of posts) and `{{LATEST_POSTS}}` (the
latest posts' articles). Each takes an optional `(n)` limit. A second
command, `new`, creates the file of a new post from a title given on the
command line.

This project models the generator's content pipeline, one module per source
file:

- **Post naming** (`IngestFiles`). A post's sort key and URL come from the
  dash-separated parts of its file name, and the post index is sorted newest
  key first. Front matter is dispatched to the YAML parser, the TOML parser
  or the fallback title.
- **Title fallback** (`FrontMatter`). The title is the first `#`–`###`
  heading, else the first non-blank line cut to a maximum length, else
  `Untitled Post`.
- **Placeholder matching** (`TokenPattern`). The two placeholder regular
  expressions are a deterministic leftmost-match scanner.
- **Placeholder expansion and limits** (`ContentModifier`, `Helpers`). Only
  the first placeholder of a family is replaced, by the post list or the
  latest articles cut to the limit.
- **Fragments and the page shell** (`RenderMarkdown`, `HtmlTemplate`). The
  post list, the `<article>` block, the navigation line, the footer and the
  HTML page shell.
- **Writing the site** (`WriteFiles`). The site's files are the fields of a
  `Site` object that the writing methods update in place:
  - `createPosts` writes each post's page and builds its record with the
    neighbour links.
  - The page directory walk and the index page.
- **The commands** (`Build`, `Commands`).
  - Blog-directory validation, and the order of the build steps.
  - The new-post command's argument handling, its file name and front matter,
    which round-trip through the post-name derivation.

Helper modules:
- `Strings`: JavaScript's `split`, `join`, `trim`, `indexOf`, first-match
  `replace`, `padStart` and `String(n)`, over `seq<char>`.
- `Sorting`: the stable descending sort that `Array.prototype.sort` performs
  with `localeCompare`.
- `Posts`: the `PostInfo` record.
- `Environment`: everything the generator reads from outside its own code.
  That is the environment variables, the readable files, the Markdown
  renderer, the two front-matter parsers, the language dictionary, the style
  sheet, the build version and the JSX components. All of these are explicit
  parameters.

A post's slug is `slugParts.join("-").replace(".md", "")`
(src/ingest-files.ts:147). This removes the first `.md` wherever it is, not
only a trailing one: for `2024-01-01-x.mdx-notes.md` the slug is
`xx-notes.md`. `IngestFiles.Slug` does the same, and `IngestFiles.SlugExample`
states this case.

## Model

| member | source | states |
|---|---|---|
| Strings.SkipSpaces | src/content-modifier.ts:13 | `\s*` stops at or after its start and never past the end |
| Strings.SkipSpacesSkips | src/front-matter.ts:10 | the run that `\s+` after the `#`s (and `\s*` in a placeholder) consumes is white space, and it stops at the end or at a character that is not white space |
| Strings.TrimShape | src/front-matter.ts:9 | `trim()` is a slice of the input that neither starts nor ends with white space, and only white space was cut off either side |
| Strings.TrimEmptyIff | src/front-matter.ts:21 | a trimmed line is empty exactly when the line is all white space |
| Strings.TrimIdentity | src/ingest-files.ts:36 | text with no white space at either end is its own trim |
| Strings.Split | src/ingest-files.ts:145-146 | `split(c)` gives at least one part, and no part contains the separator |
| Strings.JoinSplit | src/ingest-files.ts:146-147 | joining the parts of a split with the separator gives back the text |
| Strings.SplitJoin | src/ingest-files.ts:146-147 | splitting parts joined by a separator they lack gives back the parts |
| Strings.SplitAppend | src/ingest-files.ts:146 | a separator splits the text into the parts on either side of it |
| Strings.SplitKeeps | src/front-matter.ts:5 | every character of every part of a split is a character of the text |
| Strings.IndexOfFrom | src/ingest-files.ts:147 | the first occurrence of the pattern at or after the start, or none at all |
| Strings.ReplaceFirstExtension | src/ingest-files.ts:147 | removing the first `.md` from a dot-free stem followed by `.md` leaves the stem |
| Strings.ToLower | src/helpers.ts:37 | `toLowerCase` keeps the length and maps each character by itself |
| Strings.NatToString | src/cli/commands.ts:37-39 | `String(n)` is a non-empty run of decimal digits |
| Strings.ParseNatToString | src/helpers.ts:23 | `parseInt` of the decimal text of a number gives the number back |
| Strings.PadStart | src/cli/commands.ts:38-39 | `padStart(w, f)` has length max(\|s\|, w), ends with `s`, and is filled with `f` in front |
| Sorting.LexLeTotal | src/ingest-files.ts:153 | the key comparison is total |
| Sorting.LexLeTransitive | src/ingest-files.ts:153 | the key comparison is transitive |
| Sorting.LexLeAntisymmetric | src/ingest-files.ts:153 | keys that compare both ways are equal |
| Sorting.SortDescSorted | src/ingest-files.ts:153 | the sort's result is ordered by descending key |
| Sorting.SortDescPermutation | src/ingest-files.ts:153 | the sort's result holds exactly the input's elements (multiset equality) |
| Sorting.SortDescStable | src/ingest-files.ts:153 | elements sharing a key keep their input order |
| Sorting.InsertDescElements | src/ingest-files.ts:153 | one insertion step adds exactly the inserted element |
| Sorting.InsertDescSorted | src/ingest-files.ts:153 | one insertion step keeps a sorted list sorted |
| TokenPattern.DigitRun | src/content-modifier.ts:13 | the digit run from an index is maximal: all digits, then the end or a non-digit |
| TokenPattern.ArgAt | src/helpers.ts:21 | a `(ddd)` group read at an index ends after it and within the text |
| TokenPattern.MatchAt | src/content-modifier.ts:13 | a placeholder match anchored at an index starts there and ends within the text |
| TokenPattern.FirstMatchFrom | src/content-modifier.ts:13-14 | the match found is the leftmost one: nothing matches before it, and none found means none anywhere |
| TokenPattern.NoMatchWithoutBrace | src/content-modifier.ts:13 | a match starts with `{` |
| TokenPattern.FirstMatchFromIs | src/content-modifier.ts:13-14 | a match with no match before it is the leftmost match |
| TokenPattern.MatchShape | src/content-modifier.ts:13 | a match is `{{`, white space, the name, an optional `(ddd)`, white space and `}}`, and carries the group's number |
| TokenPattern.FirstArgOfToken | src/helpers.ts:20-24 | the `\(\d{1,3}\)` search inside a placeholder's matched text finds exactly that placeholder's own argument |
| Strings.SkipSpacesUnique | src/content-modifier.ts:13 | `\s*` stops exactly where the run of white space ends |
| TokenPattern.MatchMoves | src/content-modifier.ts:13 | a match depends on its own characters alone: the same characters anywhere match there, with the same length and argument |
| TokenPattern.NoBraceInside | src/content-modifier.ts:13 | inside a match, `{` occurs only in its two opening braces |
| TokenPattern.NoOverlap | src/content-modifier.ts:13 | two matches, of one family or two, never overlap: the later one starts at or after the end of the earlier |
| TokenPattern.SpliceBefore | src/content-modifier.ts:18-21 | replacing text that lies after a match leaves the match where it is |
| TokenPattern.SpliceAfter | src/content-modifier.ts:18-21 | replacing text that lies before a match moves the match by the change in length, with its argument |
| TokenPattern.Apart | src/content-modifier.ts:13-35 | a match of one family and a match of another at a different place do not overlap |
| TokenPattern.ExpansionFinds | src/content-modifier.ts:13-43 | replacing a match of another family keeps some match of this family, so the second `test` still succeeds |
| TokenPattern.SomeMatchFound | src/content-modifier.ts:14 | a text with a match anywhere passes `test` |
| Helpers.FormatDateString | src/helpers.ts:3-10 | the three parts with the joiner between each pair |
| Helpers.LimitPostList | src/helpers.ts:12-30 | the result is always a prefix of the posts: same order, never longer |
| Helpers.LimitFollowsPlaceholder | src/helpers.ts:18-29 | with `(n)` in the first match: the first min(n, \|posts\|) posts; otherwise the first `defaultLimit` posts, or all posts when there is no default |
| Helpers.LimitPostListExample | src/helpers.ts:12-30 | `{{POSTS_LIST(2)}}` keeps the first two of four posts |
| Helpers.ExampleMatch | src/content-modifier.ts:13 | the placeholder in `Here are some posts: {{POSTS_LIST(2)}}` spans indices 21–38 with argument 2 |
| Helpers.CollapseRuns | src/helpers.ts:38 | replacing each run of non-`[a-z0-9]` characters by `-` leaves only slug characters and never `--` |
| Helpers.StripLeadingDashes | src/helpers.ts:39 | `^-+` removed: a suffix of the input that does not start with `-` |
| Helpers.StripTrailingDashes | src/helpers.ts:39 | `-+$` removed: a prefix of the input that does not end with `-` |
| Helpers.TitleToSlugIsSlug | src/helpers.ts:35-40 | a slug holds only `a`–`z`, `0`–`9` and `-`, never starts or ends with `-`, and never holds `--` |
| Helpers.StripDashesIsSlug | src/helpers.ts:39 | cutting the dashes off both ends of the collapsed text gives a slug |
| Helpers.TitleToSlugOfSlug | src/helpers.ts:35-40 | a slug is its own slug |
| Helpers.TitleToSlugIdempotent | src/helpers.ts:35-40 | `titleToSlug(titleToSlug(t)) == titleToSlug(t)` |
| Helpers.SlugHasNoDot | src/helpers.ts:38 | a slug holds no `.` and no `/` |
| Helpers.CollapseRunsAppend | src/helpers.ts:38 | the global replacement works left to right: a text's result is its prefix's result and then the rest's |
| Helpers.TitleToSlugExample | src/helpers.ts:35-40 | `Hello World! This is a Test.` becomes `hello-world-this-is-a-test` |
| FrontMatter.ExtractTitle | src/front-matter.ts:38-46 | the front matter's `title` when it is a string; `Untitled Post` otherwise, also when there is no front matter |
| FrontMatter.HeadingShape | src/front-matter.ts:9-12 | a heading's trimmed line is 1–3 `#`, white space, then the title, which is non-empty, starts with non-space and holds no line terminator |
| FrontMatter.HeadingOfShape | src/front-matter.ts:9-12 | conversely, such a trimmed line is a heading with that title |
| FrontMatter.NotHeadings | src/front-matter.ts:10 | four or more `#`, or `#` not followed by white space, are no heading |
| FrontMatter.HeadingIndex | src/front-matter.ts:8-15 | the index of the first heading line: every earlier line is no heading, and none found means no line is one |
| FrontMatter.FirstNonBlank | src/front-matter.ts:21 | `lines.find` of the first line that is not blank, or none when all are blank |
| FrontMatter.Truncate | src/front-matter.ts:26-28 | a longer line becomes its first `maxLength` characters plus `...` (length maxLength+3); a shorter one is kept |
| FrontMatter.FallbackAttrs | src/front-matter.ts:34 | the front matter holds the title and a truthy `noFrontMatter` |
| FrontMatter.FindHeadingTitle | src/front-matter.ts:6-15 | the heading loop leaves the first heading's text, or `Untitled Post` when there is none |
| FrontMatter.FallbackTitleNoFrontMatter | src/front-matter.ts:1-36 | the content is the input unchanged, and the front matter is the fallback title with `noFrontMatter` |
| FrontMatter.FallbackTitleFirstHeading | src/front-matter.ts:8-15 | the first heading wins wherever it is, whatever comes before or after, unless its text is `Untitled Post` |
| FrontMatter.FallbackTitleNoHeading | src/front-matter.ts:17-30 | with no heading: the first non-blank line, trimmed and cut, else `Untitled Post`; so the title is at most maxLength+3 long |
| FrontMatter.FallbackTitleBlank | src/front-matter.ts:6-30 | empty or all-white-space text gives `Untitled Post` |
| FrontMatter.FallbackTitleSentinelHeading | src/front-matter.ts:18 | a first heading whose text is `Untitled Post` falls through to the first non-blank line |
| FrontMatter.ExtractTitleOfFallback | src/front-matter.ts:32-46 | `extractTitle` of the fallback's front matter gives its title back |
| IngestFiles.Without | src/ingest-files.ts:68-72 | deleting a name from the set leaves exactly the other names |
| IngestFiles.CheckReservedPostsName | src/ingest-files.ts:14-31 | a collision is reported exactly when some entry is named `posts`, and it names `posts` |
| IngestFiles.CheckCollisionsBetweenPublicAndPages | src/ingest-files.ts:101-118 | nothing iff the name sets are disjoint; otherwise the first public name, in iteration order, that is also a page name |
| IngestFiles.CheckNamingCollisionsPublicAndPages | src/ingest-files.ts:57-99 | after dropping `.gitkeep`: first the first shared name, then `posts` in public, then in pages; nothing when a directory is missing or all checks pass |
| IngestFiles.RelPath | src/ingest-files.ts:127-129 | the relative path ends with the entry's name |
| IngestFiles.FindMarkdownFiles | src/ingest-files.ts:120-138 | the loop collects the `.md` files of the listing, with each subdirectory's files spliced in place |
| IngestFiles.MarkdownFilesSound | src/ingest-files.ts:120-138 | every path found is the relative path of a `.md` file somewhere in the tree |
| IngestFiles.FoundAt | src/ingest-files.ts:120-138 | the position in the tree of a path found by the search |
| IngestFiles.MarkdownFilesComplete | src/ingest-files.ts:120-138 | every `.md` file at any depth is found |
| IngestFiles.Part | src/ingest-files.ts:146-149 | a destructured part, or `undefined` past the end |
| IngestFiles.DeriveAll | src/ingest-files.ts:144-151 | one derived key and URL per file, in listing order |
| IngestFiles.PostList | src/ingest-files.ts:140-155 | the index is a permutation of the derived entries, sorted newest key first, with equal keys in listing order |
| IngestFiles.FileNameBelow | src/ingest-files.ts:145 | directory components are ignored: only the last component names the post |
| IngestFiles.DeriveName | src/ingest-files.ts:146-149 | the key of `y-m-d-slug.md` is `y+m+d`, its slug is `slug` (which may hold dashes), and its URL is `/posts/y/m/d/slug/` |
| IngestFiles.DeriveTopName | src/ingest-files.ts:145-150 | the same for a file at the top of `posts` |
| IngestFiles.DeriveExample | src/ingest-files.ts:145-150 | `2023-01-01-post1.md` gives key `20230101` and URL `/posts/2023/01/01/post1/` |
| Strings.ReplaceFirstMd | src/ingest-files.ts:147 | `replace(".md", "")` removes the first `.md` wherever it stands, keeping what follows it whole |
| IngestFiles.SlugDropsFirstMd | src/ingest-files.ts:146-147 | the slug of `y-m-d-a.md` followed by any text `b` is `a` followed by `b`: the first `.md` goes, later ones stay |
| IngestFiles.SlugExample | src/ingest-files.ts:147 | `2024-01-01-x.mdx-notes.md` has slug `xx-notes.md` |
| IngestFiles.DeriveShortName | src/ingest-files.ts:146-149 | a name without dashes leaves the missing parts as `undefined` in the key and the URL |
| IngestFiles.DetectFormat | src/ingest-files.ts:36-50 | YAML exactly when the trimmed text starts with `---`; TOML exactly when it does not but starts with `+++` |
| IngestFiles.FromParsed | src/ingest-files.ts:38-54 | a parser that throws gives `{content: "", frontMatter: undefined}`; otherwise the body and the attributes |
| IngestFiles.ReadContentAndFrontMatter | src/ingest-files.ts:33-55 | an unreadable file gives the failure result; `---` goes to YAML first, then `+++` to TOML, else the fallback keeps the text and titles it |
| IngestFiles.DetectAfterSpaces | src/ingest-files.ts:36-42 | leading white space does not hide the delimiter |
| I18n.DefaultLang | src/i18n/i18n.ts:3-16 | the configured language, else `en` |
| I18n.Translate | src/i18n/i18n.ts:3-13 | a known language's labels; an unknown language gets the English labels |
| I18n.CheckLangSupport | src/i18n/i18n.ts:15-28 | the language when the dictionary has it, else `en` |
| I18n.CheckedIsSupported | src/i18n/i18n.ts:15-28 | with English present, the checked language is always in the dictionary |
| I18n.CheckIdempotent | src/i18n/i18n.ts:15-28 | checking twice is checking once |
| I18n.TranslateChecked | src/i18n/i18n.ts:3-28 | translating the checked language gives the same labels as translating the language |
| HtmlTemplate.Pieces | src/html-template.ts:55-132 | a page is made of sixteen pieces in document order |
| HtmlTemplate.AssembleOrder | src/html-template.ts:55-132 | any two pieces occur in the page in their order |
| HtmlTemplate.PageEnds | src/html-template.ts:55-132 | the page starts with `<!DOCTYPE html>\n<html lang="` and the language, and ends with `</body>\n</html>\n` |
| HtmlTemplate.PageTitle | src/html-template.ts:58 | the page holds `<title>` + title + `</title>` |
| HtmlTemplate.PageOrder | src/html-template.ts:87-93 | nav, content, `<hr>` and footer appear verbatim and in that order |
| HtmlTemplate.PageDefaults | src/html-template.ts:78-129 | missing head elements or scripts leave their comments; given ones appear verbatim |
| HtmlTemplate.PageLangDefault | src/html-template.ts:56 | without a configured language the page is `lang="en"` |
| RenderMarkdown.RenderMarkdownFileToHtml | src/render-markdown.ts:7-16 | an unreadable file gives `""`; a readable one gives its rendered text |
| RenderMarkdown.RenderFooter | src/render-markdown.ts:35-44 | `""` exactly when the hide flag is `"true"`; otherwise `footer.md` inside `<footer>` |
| RenderMarkdown.ConcatAppend | src/render-markdown.ts:46-53 | the text accumulated over two lists in turn is the two texts in turn |
| RenderMarkdown.ConcatOrder | src/render-markdown.ts:92-105 | two posts' fragments appear in the posts' order |
| RenderMarkdown.CreatePostListMarkdown | src/render-markdown.ts:46-53 | the loop's text is one `- <small>date</small> [title](url)` line per post, in order |
| RenderMarkdown.PostListLines | src/render-markdown.ts:46-53 | an empty list gives `""`; every post's line appears, in the list's order |
| RenderMarkdown.PostListAppend | src/render-markdown.ts:46-53 | the list of two lists in turn is their two lists in turn |
| RenderMarkdown.CreateHtmlPostFromMarkdown | src/render-markdown.ts:55-72 | the article: the date as `Y-M-D`, the title heading, then the rendered body |
| RenderMarkdown.CreateLatestPostsMarkdown | src/render-markdown.ts:92-105 | the loop's text is one article per post, dated by the parts of its `postDate` |
| RenderMarkdown.LatestPostDate | src/render-markdown.ts:95-102 | a post dated `formatDateString(y, m, d)` shows the article for `y`, `m`, `d` |
| RenderMarkdown.LatestPostsArticles | src/render-markdown.ts:92-105 | every post's article appears, in the list's order |
| RenderMarkdown.NavLineCases | src/render-markdown.ts:84-87 | a prev link iff prevUrl is non-empty, ` \| ` iff both are, a next link iff nextUrl is; prev comes first |
| RenderMarkdown.PageOfShows | src/render-markdown.ts:25-28 | a page shows its title, then nav before the content, then the footer |
| RenderMarkdown.CreateHtmlPageFromMarkdown | src/render-markdown.ts:18-29 | the shell titled `title` around `<h1>title</h1>` and the rendered body |
| RenderMarkdown.CreateHtmlPostFromMarkdownToHTML | src/render-markdown.ts:74-90 | the shell around the article followed by the navigation line in the configured language |
| RenderMarkdown.PostPageShows | src/render-markdown.ts:74-90 | a post page is a whole document with the title, nav before article and links, and those before the footer |
| ContentModifier.SubstituteLiteral | src/content-modifier.ts:18-21 | a replacement without `$` is inserted as it is |
| ContentModifier.SubstituteMatch | src/content-modifier.ts:18-21 | `$&` in a replacement puts the matched text back |
| ContentModifier.IncludePostListPartial | src/content-modifier.ts:8-26 | content with no `POSTS_LIST` placeholder is returned unchanged |
| ContentModifier.IncludeLatestPostsPartial | src/content-modifier.ts:28-49 | content with no `LATEST_POSTS` placeholder is returned unchanged |
| ContentModifier.PostListExpansion | src/content-modifier.ts:13-21 | only the leftmost placeholder is replaced: text before + list of the selected posts + text after; no argument lists all posts |
| ContentModifier.LatestPostsExpansion | src/content-modifier.ts:35-43 | the same for `LATEST_POSTS`; with no argument, exactly the first post's article |
| ContentModifier.FamiliesDisjoint | src/content-modifier.ts:13-35 | the two families never match at the same place |
| ContentModifier.PostListKeepsLatestPosts | src/content-modifier.ts:13-21 | a `LATEST_POSTS` placeholder never overlaps the replaced `POSTS_LIST` one, and the expanded text still has a `LATEST_POSTS` match |
| ContentModifier.PostListKeepsEarlierLatestPosts | src/content-modifier.ts:13-21 | a `LATEST_POSTS` placeholder before the replaced one is matched at the same place, with the same argument, after the expansion |
| ContentModifier.PostListMovesLaterLatestPosts | src/content-modifier.ts:13-21 | a `LATEST_POSTS` placeholder after the replaced one is matched after the expansion, moved by the change in length, with the same length and argument |
| ContentModifier.LatestPostsKeepPostList | src/content-modifier.ts:35-43 | a `POSTS_LIST` placeholder never overlaps the replaced `LATEST_POSTS` one, and the expanded text still has a `POSTS_LIST` match |
| ContentModifier.LatestPostsKeepEarlierPostList | src/content-modifier.ts:35-43 | a `POSTS_LIST` placeholder before the replaced one is matched at the same place, with the same argument, after the expansion |
| ContentModifier.LatestPostsMoveLaterPostList | src/content-modifier.ts:35-43 | a `POSTS_LIST` placeholder after the replaced one is matched after the expansion, moved by the change in length, with the same length and argument |
| ContentModifier.NotPlaceholders | src/content-modifier.ts:13 | `{{POSTS_LIST (5)}}` and `{{POSTS_LIST(1234)}}` match nothing and are left unchanged |
| ContentModifier.SpacedAfterName | src/content-modifier.ts:13 | a space between the name and `(` makes no placeholder |
| ContentModifier.LongAfterName | src/content-modifier.ts:13 | a four-digit argument makes no placeholder |
| WriteFiles.Site.Write | src/write-files.ts:48-59 | writing a file sets that path's text and changes nothing else |
| WriteFiles.Site.CleanUpDist | src/write-files.ts:65-73 | every file below `dist/` is removed, and nothing else |
| WriteFiles.WithoutDist | src/write-files.ts:65-73 | the files outside `dist/`, with their texts unchanged |
| WriteFiles.WrittenAppend | src/write-files.ts:30-61 | two sequences of writes in turn are their concatenation |
| WriteFiles.WrittenAt | src/write-files.ts:30-61 | a path written to is present afterwards; a path never written to keeps what it had |
| WriteFiles.FindIndex | src/write-files.ts:42 | `findIndex`: the first index with the key, or -1 exactly when no entry has it |
| WriteFiles.CreatePosts | src/write-files.ts:24-63 | one record per markdown file, in listing order and unsorted; one page written per file, with links from the sorted index |
| WriteFiles.WritePost | src/write-files.ts:31-60 | one loop turn: the post's page written at `dist/posts/y/m/d/slug/index.html`, its record returned |
| WriteFiles.NeighbourLinks | src/write-files.ts:42-44 | nextUrl is the URL at index−1 (none for the newest) and prevUrl the URL at index+1 (none for the oldest); an absent key reads index −1 |
| WriteFiles.PostKeyIndexed | src/write-files.ts:40-42 | every post's key, derived as in `postList`, occurs in the index |
| WriteFiles.FirstOfKey | src/write-files.ts:42 | in the sorted index, an entry whose key differs from its predecessor's is what `findIndex` finds |
| WriteFiles.AdjacentLinks | src/write-files.ts:42-44 | adjacent posts with distinct keys link to each other: A.prevUrl = B.url and B.nextUrl = A.url |
| WriteFiles.PostRecordLinks | src/write-files.ts:39-60 | posts sharing a key get the same links; the page title is `""` without front matter, and the record's title is always `extractTitle` |
| WriteFiles.OutputDir | src/write-files.ts:132 | the output directory is `dist`, or `dist/` + the relative path |
| WriteFiles.WritePageFromMarkdown | src/write-files.ts:120-138 | writes the expanded, rendered page to `outputDir/name.html`, the name without its first `.md`, and nothing else |
| WriteFiles.WritePageFromJsx | src/write-files.ts:93-118 | writes the component's HTML in the shell, titled by the name without its first `.jsx`, and nothing else |
| WriteFiles.ProcessPageDirectory | src/write-files.ts:160-183 | the site after the loop is the site with the listing's page writes applied in listing order |
| WriteFiles.ProcessEntry | src/write-files.ts:165-181 | one entry: `posts` skipped, directories recursed into, `.md`/`.jsx` files written, anything else ignored |
| WriteFiles.PageWritesAppend | src/write-files.ts:165-182 | the writes of two listings in turn are their concatenation |
| WriteFiles.PageWritesPaths | src/write-files.ts:160-183 | every page the walk writes lies below `dist/` and ends in `.html` |
| WriteFiles.MarkdownPageName | src/write-files.ts:126-135 | `stem.md` below relative path `rel` becomes `OutputDir(rel)/stem.html` |
| WriteFiles.PostsEntrySkipped | src/write-files.ts:172 | an entry named `posts`, file or directory, writes nothing |
| WriteFiles.CreatePages | src/write-files.ts:140-142 | the walk starts at `pages` with an empty relative path |
| WriteFiles.IndexPage | src/write-files.ts:144-158 | there is an index page exactly when `index.md` is readable and its TOML parses |
| WriteFiles.WriteIndex | src/write-files.ts:144-158 | `dist/index.html` is written when the index parses; otherwise nothing changes |
| WriteFiles.ExpandPlain | src/write-files.ts:128-129 | text with no placeholder is shown as written |
| WriteFiles.IndexPageShows | src/write-files.ts:147-157 | the index shows the TOML title, and nav before the heading and the expanded, rendered body |
| Build.Problem | src/cli/build.ts:23-33 | a missing path is reported bare; a wrong kind gets `path/ (expected directory, found file)` or `path (expected file, found directory)`; nothing exactly when right |
| Build.ValidateBlogDirectory | src/cli/build.ts:14-34 | the loop collects the reports of the three required paths |
| Build.ProblemsOrder | src/cli/build.ts:15-23 | the reports come in the order posts, pages, index.md |
| Build.ValidIff | src/cli/build.ts:15-34 | nothing is reported exactly when `posts` and `pages` are directories and `index.md` is a file |
| Build.BuildBlog | src/cli/build.ts:49-65 | validation failure or a collision stops before any file changes; otherwise clean, posts, sort, pages, then the index, in that order |
| Build.SortedPostsOrdered | src/cli/build.ts:57-58 | the posts pages and the index see are sorted newest key first and are a permutation of `createPosts`' records |
| Commands.Filtered | src/cli/commands.ts:32 | the filtered arguments are exactly the non-flag arguments |
| Commands.FilteredAppend | src/cli/commands.ts:32 | filtering works piece by piece, so the other arguments keep their order |
| Commands.FlagAnywhere | src/cli/commands.ts:31-33 | a format flag anywhere asks for YAML and is no part of the title |
| Commands.PostTitle | src/cli/commands.ts:33 | the joined, trimmed arguments, or `New Post` when that is empty; never empty |
| Commands.TwoDigits | src/cli/commands.ts:38-39 | the month and day are at least two digits |
| Commands.CreateNewPost | src/cli/commands.ts:24-61 | stops when `posts` is missing or no directory, and when the file exists; otherwise creates `posts/Y-MM-DD-slug.md` with the front matter in the format asked for |
| Commands.NewPostFormat | src/cli/commands.ts:54-60 | the new post's text makes `readContentAndFrontMatter` pick the parser of the format asked for |
| Commands.NewPostRoundTrip | src/cli/commands.ts:34-41 | the new file is found by the post search, and derives key `Y+MM+DD` and URL `/posts/Y/MM/DD/slug/` |
| Commands.NameRoundTrip | src/cli/commands.ts:41 | the same for any digit-only date and any slug without `.` or `/` |

## Left out

- File-system I/O is not performed.
  - Directory listings are trees of `Entry` values.
  - Readable files are a map in `Env`.
  - `Deno.statSync` is a stat map.
  - The written site is the `files` map of a `Site` object.
  - `mkdir` is implied by writing a path.
- Console output and `Deno.exit` are not modelled. An exit becomes a failure value: `Outcome`, `NewPost`, `Option`.
- `copyDirRecursive` (src/write-files.ts:75-91) is not modelled, so `BuildBlog` leaves out its last step, the copy of `public` into `dist`.
- `checkNamingCollisionsPublicAndPages` rethrows errors other than NotFound. Only a missing directory is modelled.
- Foreign libraries are function parameters of `Env`:
  - the Markdown renderer (`render` from `@deno/gfm`);
  - the YAML and TOML parsers (`extractYaml`, `extractToml`); a parser that throws gives `None`;
  - the JSX components with `renderToString`.
- A failed dynamic `import` of a JSX page is not modelled.
- The clock is not modelled:
  - `Date.now()` (the build version) is a field of `Env`;
  - `new Date()` in the new-post command is the year, month index and day passed in.
- `Env` holds one build version for a whole build, although the source reads the clock for each page.
- The style sheet and Prism imports (src/html-template.ts:2-35) are a parameter of the shell.
- The inline colour-mode scripts of the page shell are a `Theme` parameter, and the blog passes `ColourModeTheme`.
- The `DENO_QUICKBLOG_*` variables and `BASE_URL` are fields of `Env`.
- `DENO_QUICKBLOG_TITLE_MAX_LENGTH` is taken as already parsed to a number. A value that parses to `NaN` or a negative number is not modelled.
- `localeCompare` is code-point order on the keys. For the digit keys the blog uses, that agrees with the locale order.
- `toLowerCase` and `trim` follow the ASCII letters and the JavaScript white-space set. Unicode case mapping beyond ASCII is not modelled.
- The dictionary of src/i18n/dictionary.ts is not part of this model. It is a map in `Env`, and `Environment.Valid` requires it to hold `en`, because `i18n` reads `dict["en"]` for an unknown language.
- FrontMatter.Truncate: lengths count characters (Unicode scalar values), while `length` and `slice` count UTF-16 code units, so a line holding characters outside the Basic Multilingual Plane is measured and cut differently (21 emoji are 42 code units but 21 characters here).
- I18n.Translate: requires the language or English to be in the dictionary. Without either, the source throws a TypeError.
- Build.BuildBlog: the result of `checkLangSupport` is computed and discarded, as in the source. Its warning is console output.
- Build.BuildBlog: `posts.sort(...)` in place is modelled as reassigning the sorted sequence.
- `includeLatestPostsPartial` logs the number of posts it included; that console output is not modelled.
- `init` (src/cli/init.ts) and the command dispatch of mod.ts are not part of this model.
