/**
 * Reading the blog's sources: which directory entries collide, which files
 * are posts, what key and URL a post's file name gives it, and how a file's
 * text is split into body and front matter.
 */
module IngestFiles {
  import opened Wrappers
  import opened Strings
  import opened Sorting
  import opened FrontMatter

  // ---------------------------------------------------------------------------
  // directory listings

  /** A directory entry. A symbolic link is neither a file nor a directory. */
  datatype Entry =
    | File(name: string)
    | Directory(name: string, entries: seq<Entry>)
    | Symlink(name: string)

  /** The names of a listing, in listing order. */
  function Names(entries: seq<Entry>): (r: seq<string>)
    ensures |r| == |entries| && forall i :: 0 <= i < |entries| ==> r[i] == entries[i].name
  {
    seq(|entries|, i requires 0 <= i < |entries| => entries[i].name)
  }

  /** The name the collision check tolerates in both directories. */
  const GitKeep: string := ".gitkeep"

  /** The name kept for the generated posts. */
  const Reserved: string := "posts"

  /** `names.delete(x)` on a set of names held in insertion order. */
  function Without(names: seq<string>, x: string): (r: seq<string>)
    ensures x !in r
    ensures forall n :: n in r <==> n in names && n != x
  {
    if names == [] then []
    else (if names[0] == x then [] else [names[0]]) + Without(names[1..], x)
  }

  // ---------------------------------------------------------------------------
  // collisions and the reserved name

  /** `checkReservedPostsName` with `errorOut` false: the first entry named
      `posts`, if any. */
  method CheckReservedPostsName(entries: seq<Entry>) returns (collision: Option<string>)
    ensures collision.Some? <==> Reserved in Names(entries)
    ensures collision.Some? ==> collision.value == Reserved
  {
    for i := 0 to |entries|
      invariant forall j :: 0 <= j < i ==> entries[j].name != Reserved
    {
      if entries[i].name == Reserved {
        return Some(entries[i].name);
      }
    }
    return None;
  }

  /** No name of `a` is a name of `b`. */
  predicate Disjoint(a: seq<string>, b: seq<string>) {
    forall i :: 0 <= i < |a| ==> a[i] !in b
  }

  /** `checkCollisionsBetweenPublicAndPages` with `errorOut` false: the first
      public name, in iteration order, that is also a page name. */
  method CheckCollisionsBetweenPublicAndPages(publicNames: seq<string>, pageNames: seq<string>)
    returns (collision: Option<string>)
    ensures collision.None? <==> Disjoint(publicNames, pageNames)
    ensures collision.Some? ==>
              exists i :: 0 <= i < |publicNames| && publicNames[i] == collision.value
                          && collision.value in pageNames
                          && Disjoint(publicNames[..i], pageNames)
  {
    for i := 0 to |publicNames|
      invariant Disjoint(publicNames[..i], pageNames)
    {
      if publicNames[i] in pageNames {
        return Some(publicNames[i]);
      }
      assert publicNames[..i + 1] == publicNames[..i] + [publicNames[i]];
    }
    assert publicNames[..|publicNames|] == publicNames;
    return None;
  }

  /** `checkNamingCollisionsPublicAndPages` with `errorOut` false. A listing
      is `None` when its directory does not exist, which ends the check with
      nothing found. Otherwise the names of both listings, without
      `.gitkeep`, are checked for a shared name first, then each listing in
      turn for the reserved name. */
  method CheckNamingCollisionsPublicAndPages(publicEntries: Option<seq<Entry>>, pageEntries: Option<seq<Entry>>)
    returns (collision: Option<string>)
    ensures publicEntries.None? || pageEntries.None? ==> collision.None?
    ensures publicEntries.Some? && pageEntries.Some? ==>
              var a := Without(Names(publicEntries.value), GitKeep);
              var b := Without(Names(pageEntries.value), GitKeep);
              && (collision.None? <==>
                    Disjoint(a, b) && Reserved !in Names(publicEntries.value) && Reserved !in Names(pageEntries.value))
              && (!Disjoint(a, b) ==> collision.Some? && collision.value in a && collision.value in b
                                      && exists i :: 0 <= i < |a| && a[i] == collision.value && Disjoint(a[..i], b))
              && (Disjoint(a, b) ==> collision.None? || collision.value == Reserved)
    ensures collision.Some? ==> collision.value != GitKeep
  {
    if publicEntries.None? || pageEntries.None? {
      return None;
    }
    var publicNames := Without(Names(publicEntries.value), GitKeep);
    var pageNames := Without(Names(pageEntries.value), GitKeep);
    collision := CheckCollisionsBetweenPublicAndPages(publicNames, pageNames);
    if collision.Some? {
      return;
    }
    collision := CheckReservedPostsName(publicEntries.value);
    if collision.Some? {
      return;
    }
    collision := CheckReservedPostsName(pageEntries.value);
  }

  // ---------------------------------------------------------------------------
  // finding markdown files

  /** The path of entry `name` below the relative path `rel`; at the top
      (`rel` empty) the name alone. */
  function RelPath(rel: string, name: string): (r: string)
    ensures EndsWith(r, name)
  {
    if rel == [] then name else rel + "/" + name
  }

  /** What one entry contributes to `findMarkdownFiles`. */
  function FoundIn(e: Entry, rel: string): seq<string>
    decreases e, 1
  {
    match e
    case File(name) => if EndsWith(name, ".md") then [RelPath(rel, name)] else []
    case Directory(name, entries) => MarkdownFiles(entries, RelPath(rel, name))
    case Symlink(_) => []
  }

  /** The markdown files of a listing and of every directory below it, in
      listing order, each subdirectory's files in the place of the
      subdirectory. */
  function MarkdownFiles(entries: seq<Entry>, rel: string): seq<string>
    decreases entries, 0
  {
    if entries == [] then []
    else FoundIn(entries[0], rel) + MarkdownFiles(entries[1..], rel)
  }

  /** `findMarkdownFiles(dir, rel)` over the listing of `dir`. */
  method FindMarkdownFiles(entries: seq<Entry>, rel: string) returns (files: seq<string>)
    ensures files == MarkdownFiles(entries, rel)
    decreases entries, 0
  {
    files := [];
    for i := 0 to |entries|
      invariant files + MarkdownFiles(entries[i..], rel) == MarkdownFiles(entries, rel)
    {
      MarkdownFilesAt(entries, i, rel);
      ghost var rest := MarkdownFiles(entries[i + 1..], rel);
      var found := FindIn(entries[i], rel);
      assert files + (found + rest) == files + found + rest;
      files := files + found;
    }
    assert entries[|entries|..] == [];
  }

  /** One turn of `findMarkdownFiles`' loop: a Markdown file's path, or the
      files below a directory. */
  method FindIn(dirEntry: Entry, rel: string) returns (found: seq<string>)
    ensures found == FoundIn(dirEntry, rel)
    decreases dirEntry, 1
  {
    var relPath := RelPath(rel, dirEntry.name);
    if dirEntry.File? && EndsWith(dirEntry.name, ".md") {
      found := [relPath];
    } else if dirEntry.Directory? {
      found := FindMarkdownFiles(dirEntry.entries, relPath);
    } else {
      found := [];
    }
  }

  lemma MarkdownFilesAt(entries: seq<Entry>, i: nat, rel: string)
    requires i < |entries|
    ensures MarkdownFiles(entries[i..], rel) == FoundIn(entries[i], rel) + MarkdownFiles(entries[i + 1..], rel)
  {
    assert entries[i..][1..] == entries[i + 1..];
  }

  /** The entry reached by following the indices `ix` down the tree. */
  function EntryAt(entries: seq<Entry>, ix: seq<nat>): Option<Entry>
    decreases ix
  {
    if ix == [] || ix[0] >= |entries| then None
    else if |ix| == 1 then Some(entries[ix[0]])
    else match entries[ix[0]]
      case Directory(_, children) => EntryAt(children, ix[1..])
      case _ => None
  }

  /** The relative path of the entry reached by `ix`. */
  function PathAt(entries: seq<Entry>, ix: seq<nat>, rel: string): string
    requires EntryAt(entries, ix).Some?
    decreases ix
  {
    var e := entries[ix[0]];
    if |ix| == 1 then RelPath(rel, e.name) else PathAt(e.entries, ix[1..], RelPath(rel, e.name))
  }

  /** `ix` reaches a file whose name ends in `.md`. */
  predicate IsMarkdownAt(entries: seq<Entry>, ix: seq<nat>) {
    var e := EntryAt(entries, ix);
    e.Some? && e.value.File? && EndsWith(e.value.name, ".md")
  }

  /** Every path found names a markdown file somewhere in the tree. */
  lemma MarkdownFilesSound(entries: seq<Entry>, rel: string, p: string)
    requires p in MarkdownFiles(entries, rel)
    ensures exists ix :: IsMarkdownAt(entries, ix) && PathAt(entries, ix, rel) == p
  {
    var ix := FoundAt(entries, rel, p);
  }

  /** Where a path found by the search sits in the tree. */
  lemma {:induction false} FoundAt(entries: seq<Entry>, rel: string, p: string) returns (ix: seq<nat>)
    requires p in MarkdownFiles(entries, rel)
    ensures IsMarkdownAt(entries, ix) && PathAt(entries, ix, rel) == p
    decreases entries
  {
    var e := entries[0];
    assert MarkdownFiles(entries, rel) == FoundIn(e, rel) + MarkdownFiles(entries[1..], rel);
    if p in FoundIn(e, rel) {
      if e.File? {
        ix := FoundAtHead(entries, rel, p);
      } else {
        assert e.Directory? && p in MarkdownFiles(e.entries, RelPath(rel, e.name));
        var jx := FoundAt(e.entries, RelPath(rel, e.name), p);
        EntryAtChild(entries, 0, jx, rel);
        ix := [0] + jx;
      }
    } else {
      var jx := FoundAt(entries[1..], rel, p);
      ix := FoundAtShift(entries, rel, p, jx);
    }
  }

  /** A Markdown file at the head of the listing sits at index 0. */
  lemma FoundAtHead(entries: seq<Entry>, rel: string, p: string) returns (ix: seq<nat>)
    requires entries != [] && entries[0].File? && p in FoundIn(entries[0], rel)
    ensures IsMarkdownAt(entries, ix) && PathAt(entries, ix, rel) == p
  {
    ix := [0];
    assert EntryAt(entries, ix) == Some(entries[0]);
  }

  /** A file found after the head sits one index further along. */
  lemma FoundAtShift(entries: seq<Entry>, rel: string, p: string, jx: seq<nat>) returns (ix: seq<nat>)
    requires entries != []
    requires IsMarkdownAt(entries[1..], jx) && PathAt(entries[1..], jx, rel) == p
    ensures IsMarkdownAt(entries, ix) && PathAt(entries, ix, rel) == p
  {
    ix := [jx[0] + 1] + jx[1..];
    assert [ix[0] - 1] + ix[1..] == jx;
    EntryAtTail(entries, ix, rel);
  }

  /** Every markdown file anywhere in the tree is found. */
  lemma {:induction false} MarkdownFilesComplete(entries: seq<Entry>, rel: string, ix: seq<nat>)
    requires IsMarkdownAt(entries, ix)
    ensures PathAt(entries, ix, rel) in MarkdownFiles(entries, rel)
    decreases |ix|, |entries|
  {
    var e := entries[0];
    if ix[0] == 0 {
      if |ix| > 1 {
        MarkdownFilesComplete(e.entries, RelPath(rel, e.name), ix[1..]);
      }
      assert PathAt(entries, ix, rel) in FoundIn(e, rel);
    } else {
      var jx := [ix[0] - 1] + ix[1..];
      EntryAtTail(entries, ix, rel);
      MarkdownFilesComplete(entries[1..], rel, jx);
    }
  }

  /** Dropping the first entry shifts the indices of the rest down by one. */
  lemma EntryAtTail(entries: seq<Entry>, ix: seq<nat>, rel: string)
    requires ix != [] && 1 <= ix[0] < |entries|
    ensures EntryAt(entries, ix) == EntryAt(entries[1..], [ix[0] - 1] + ix[1..])
    ensures EntryAt(entries, ix).Some? ==>
              PathAt(entries, ix, rel) == PathAt(entries[1..], [ix[0] - 1] + ix[1..], rel)
  {
    var jx := [ix[0] - 1] + ix[1..];
    assert jx[1..] == ix[1..];
  }

  /** Descending into a directory puts its index in front of the path. */
  lemma EntryAtChild(entries: seq<Entry>, n: nat, ix: seq<nat>, rel: string)
    requires n < |entries| && entries[n].Directory? && EntryAt(entries[n].entries, ix).Some?
    ensures EntryAt(entries, [n] + ix) == EntryAt(entries[n].entries, ix)
    ensures PathAt(entries, [n] + ix, rel) == PathAt(entries[n].entries, ix, RelPath(rel, entries[n].name))
  {
    assert ([n] + ix)[1..] == ix;
  }

  // ---------------------------------------------------------------------------
  // post names

  /** A post's sort key and URL. */
  datatype PostIDUrl = PostIDUrl(postKey: string, url: string)

  function KeyOf(p: PostIDUrl): string { p.postKey }

  /** `filePath.split("/").pop()`. */
  function FileName(path: string): string
  {
    Last(Split(path, '/'))
  }

  /** `String(parts[i])`, or a template's `${parts[i]}`: `"undefined"` past the end. */
  function Part(parts: seq<string>, i: nat): (r: string)
    ensures i < |parts| ==> r == parts[i]
    ensures i >= |parts| ==> r == "undefined"
  {
    if i < |parts| then parts[i] else "undefined"
  }

  /** `[year, month, day].map(String).join("")`. */
  function PostKey(fileName: string): string
  {
    var parts := Split(fileName, '-');
    Part(parts, 0) + Part(parts, 1) + Part(parts, 2)
  }

  /** `slugParts.join("-").replace(".md", "")`: everything after the third
      dash, with the first `.md` in it removed. */
  function Slug(fileName: string): string
  {
    var parts := Split(fileName, '-');
    ReplaceFirst(Join(parts[Min(3, |parts|)..], "-"), ".md", "")
  }

  /** `/posts/${year}/${month}/${day}/${slug}/`. */
  function PostUrl(fileName: string): string
  {
    var parts := Split(fileName, '-');
    "/posts/" + Part(parts, 0) + "/" + Part(parts, 1) + "/" + Part(parts, 2) + "/" + Slug(fileName) + "/"
  }

  /** The key and URL `postList` derives from a relative path. */
  function Derive(path: string): PostIDUrl
  {
    PostIDUrl(PostKey(FileName(path)), PostUrl(FileName(path)))
  }

  /** The derived entries of the listed files, in listing order. */
  function DeriveAll(paths: seq<string>): (r: seq<PostIDUrl>)
    ensures |r| == |paths| && forall i :: 0 <= i < |paths| ==> r[i] == Derive(paths[i])
  {
    seq(|paths|, i requires 0 <= i < |paths| => Derive(paths[i]))
  }

  /** The index of the posts: the derived entries, newest key first. */
  function PostsIndex(postFiles: seq<string>): seq<PostIDUrl> {
    SortDesc(DeriveAll(postFiles), KeyOf)
  }

  /** `postList` over the markdown files found below `posts`: one entry per
      file, newest key first, files sharing a key in listing order. */
  method PostList(postFiles: seq<string>) returns (postsList: seq<PostIDUrl>)
    ensures postsList == PostsIndex(postFiles)
    ensures multiset(postsList) == multiset(DeriveAll(postFiles))
    ensures SortedDesc(postsList, KeyOf)
    ensures forall k :: WithKey(postsList, KeyOf, k) == WithKey(DeriveAll(postFiles), KeyOf, k)
  {
    postsList := [];
    for i := 0 to |postFiles|
      invariant postsList == DeriveAll(postFiles[..i])
    {
      var fileName := FileName(postFiles[i]);
      postsList := postsList + [PostIDUrl(PostKey(fileName), PostUrl(fileName))];
    }
    assert postFiles[..|postFiles|] == postFiles;
    var unsorted := postsList;
    postsList := SortDesc(postsList, KeyOf);
    SortDescPermutation(unsorted, KeyOf);
    SortDescSorted(unsorted, KeyOf);
    forall k {
      SortDescStable(unsorted, KeyOf, k);
    }
  }

  /** Directory components are ignored: only the last one names the post. */
  lemma FileNameBelow(dir: string, name: string)
    requires '/' !in name
    ensures FileName(dir + "/" + name) == name
  {
    SplitAppend(dir, name, '/');
    SplitNoSeparator(name, '/');
  }

  /** A file named `Y-M-D-slug.md`, with dash-free `Y`, `M`, `D` and a
      dot-free slug, has key `YMD` and URL `/posts/Y/M/D/slug/`; the slug
      may itself hold dashes. */
  lemma DeriveName(y: string, m: string, d: string, slug: string)
    requires '-' !in y && '-' !in m && '-' !in d && '.' !in slug
    ensures var name := y + "-" + m + "-" + d + "-" + slug + ".md";
            PostKey(name) == y + m + d
            && Slug(name) == slug
            && PostUrl(name) == "/posts/" + y + "/" + m + "/" + d + "/" + slug + "/"
  {
    var rest := slug + ".md";
    var name := y + "-" + m + "-" + d + "-" + rest;
    assert y + "-" + m + "-" + d + "-" + slug + ".md" == name;
    SplitDate(y, m, d, rest);
    var parts := Split(name, '-');
    assert parts == [y, m, d] + Split(rest, '-');
    assert parts[0] == y && parts[1] == m && parts[2] == d;
    assert Min(3, |parts|) == 3;
    assert parts[3..] == Split(rest, '-');
    assert Join(parts[3..], "-") == rest by {
      JoinSplit(rest, '-');
    }
    assert Slug(name) == slug by {
      ReplaceFirstExtension(slug);
    }
  }

  /** The slug loses its first `.md` wherever it is: `Y-M-D-a.md` followed by
      any `b` has slug `a + b`, for a dot-free `a`. */
  lemma SlugDropsFirstMd(y: string, m: string, d: string, a: string, b: string)
    requires '-' !in y && '-' !in m && '-' !in d && '.' !in a
    ensures Slug(y + "-" + m + "-" + d + "-" + a + ".md" + b) == a + b
  {
    var rest := a + ".md" + b;
    var name := y + "-" + m + "-" + d + "-" + rest;
    assert y + "-" + m + "-" + d + "-" + a + ".md" + b == name;
    SplitDate(y, m, d, rest);
    var parts := Split(name, '-');
    assert Min(3, |parts|) == 3;
    assert parts[3..] == Split(rest, '-');
    JoinSplit(rest, '-');
    ReplaceFirstMd(a, b);
  }

  /** `2024-01-01-x.mdx-notes.md` has slug `xx-notes.md`: the first `.md` goes,
      the trailing one stays. */
  lemma SlugExample(name: string)
    requires name == "2024-01-01-x.mdx-notes.md"
    ensures Slug(name) == "xx-notes.md"
  {
    SlugParts(name, "2024", "01", "01", "x", "x-notes.md", "xx-notes.md");
  }

  /** `SlugDropsFirstMd` for a name and a slug given as values. */
  lemma SlugParts(name: string, y: string, m: string, d: string, a: string, b: string, slug: string)
    requires '-' !in y && '-' !in m && '-' !in d && '.' !in a
    requires name == y + "-" + m + "-" + d + "-" + a + ".md" + b && slug == a + b
    ensures Slug(name) == slug
  {
    SlugDropsFirstMd(y, m, d, a, b);
  }

  /** Three dash-free parts and a dash split off the front of a text. */
  lemma SplitDate(y: string, m: string, d: string, rest: string)
    requires '-' !in y && '-' !in m && '-' !in d
    ensures Split(y + "-" + m + "-" + d + "-" + rest, '-') == [y, m, d] + Split(rest, '-')
  {
    var r2 := d + "-" + rest;
    var r1 := m + "-" + r2;
    assert y + "-" + m + "-" + d + "-" + rest == y + "-" + r1;
    SplitFront(d, rest);
    SplitFront(m, r2);
    SplitFront(y, r1);
    var tail := Split(rest, '-');
    assert [y] + ([m] + ([d] + tail)) == [y, m, d] + tail;
  }

  lemma SplitFront(x: string, rest: string)
    requires '-' !in x
    ensures Split(x + "-" + rest, '-') == [x] + Split(rest, '-')
  {
    SplitAppend(x, rest, '-');
    SplitNoSeparator(x, '-');
  }

  /** The same for a path at the top of `posts`, whose file name is the whole path. */
  lemma DeriveTopName(y: string, m: string, d: string, slug: string)
    requires '-' !in y && '-' !in m && '-' !in d && '.' !in slug
    requires '/' !in y && '/' !in m && '/' !in d && '/' !in slug
    ensures Derive(y + "-" + m + "-" + d + "-" + slug + ".md")
         == PostIDUrl(y + m + d, "/posts/" + y + "/" + m + "/" + d + "/" + slug + "/")
  {
    var name := y + "-" + m + "-" + d + "-" + slug + ".md";
    DeriveName(y, m, d, slug);
    assert '/' !in name;
    SplitNoSeparator(name, '/');
  }

  /** The post of the tests: `2023-01-01-post1.md`. */
  lemma DeriveExample(path: string)
    requires path == "2023-01-01-post1.md"
    ensures Derive(path) == PostIDUrl("20230101", "/posts/2023/01/01/post1/")
  {
    DeriveParts(path, "2023", "01", "01", "post1", "20230101", "/posts/2023/01/01/post1/");
  }

  /** `DeriveTopName` for a path and a key and URL given as values. */
  lemma DeriveParts(path: string, y: string, m: string, d: string, slug: string, key: string, url: string)
    requires '-' !in y && '-' !in m && '-' !in d && '.' !in slug
    requires '/' !in y && '/' !in m && '/' !in d && '/' !in slug
    requires path == y + "-" + m + "-" + d + "-" + slug + ".md"
    requires key == y + m + d && url == "/posts/" + y + "/" + m + "/" + d + "/" + slug + "/"
    ensures Derive(path) == PostIDUrl(key, url)
  {
    DeriveTopName(y, m, d, slug);
  }

  /** A name with fewer than three dashes leaves the missing parts as
      `undefined` in the key and the URL. */
  lemma DeriveShortName(name: string)
    requires '-' !in name
    ensures PostKey(name) == name + "undefinedundefined"
    ensures PostUrl(name) == "/posts/" + name + "/undefined/undefined//"
  {
    SplitNoSeparator(name, '-');
  }

  // ---------------------------------------------------------------------------
  // front matter

  /** What a front-matter parser gives: the body and the attributes. */
  datatype Parsed = Parsed(body: string, attrs: Attrs)

  /** Which parser a file's text goes to. */
  datatype Format = Yaml | Toml | Plain

  /** The YAML delimiter is looked for first, then the TOML one, at the
      start of the trimmed text. */
  function DetectFormat(text: string): (f: Format)
    ensures f == Yaml <==> StartsWith(Trim(text), "---")
    ensures f == Toml <==> !StartsWith(Trim(text), "---") && StartsWith(Trim(text), "+++")
  {
    if StartsWith(Trim(text), "---") then Yaml
    else if StartsWith(Trim(text), "+++") then Toml
    else Plain
  }

  /** The result of a failed read or parse. */
  const Failed: Extracted := Extracted("", None)

  /** A parser's outcome as `{ content: body, frontMatter: attrs }`; a parser
      that throws (`None`) gives the failure result. */
  function FromParsed(p: Option<Parsed>): (r: Extracted)
    ensures p.None? ==> r == Failed
    ensures p.Some? ==> r.content == p.value.body && r.frontMatter == Some(p.value.attrs)
  {
    match p
    case Some(x) => Extracted(x.body, Some(x.attrs))
    case None => Failed
  }

  /** What `readContentAndFrontMatter` gives for the file at `path`. */
  function ContentAndFrontMatter(files: map<string, string>, path: string,
                                 yaml: string -> Option<Parsed>, toml: string -> Option<Parsed>,
                                 maxLength: nat): Extracted
  {
    if path !in files then Failed
    else match DetectFormat(files[path])
      case Yaml => FromParsed(yaml(files[path]))
      case Toml => FromParsed(toml(files[path]))
      case Plain => Extracted(files[path], Some(FallbackAttrs(FallbackTitle(files[path], maxLength))))
  }

  /** `readContentAndFrontMatter(path)`: `files` holds the readable files,
      `yaml` and `toml` are the two parsers (`None` when they throw), and
      `maxLength` is the fallback's title length. */
  method ReadContentAndFrontMatter(files: map<string, string>, path: string,
                                   yaml: string -> Option<Parsed>, toml: string -> Option<Parsed>,
                                   maxLength: nat)
    returns (r: Extracted)
    ensures r == ContentAndFrontMatter(files, path, yaml, toml, maxLength)
    ensures path !in files ==> r == Failed
    ensures path in files && StartsWith(Trim(files[path]), "---") ==> r == FromParsed(yaml(files[path]))
    ensures path in files && !StartsWith(Trim(files[path]), "---") && StartsWith(Trim(files[path]), "+++")
            ==> r == FromParsed(toml(files[path]))
    ensures path in files && DetectFormat(files[path]) == Plain
            ==> r.content == files[path] && ExtractTitle(r.frontMatter) == FallbackTitle(files[path], maxLength)
  {
    if path !in files {
      return Failed;
    }
    var fileContent := files[path];
    if StartsWith(Trim(fileContent), "---") {
      r := FromParsed(yaml(fileContent));
    } else if StartsWith(Trim(fileContent), "+++") {
      r := FromParsed(toml(fileContent));
    } else {
      r := FallbackTitleNoFrontMatter(fileContent, maxLength);
    }
  }

  /** Leading white space does not hide the delimiter. */
  lemma DetectAfterSpaces(ws: string, text: string)
    requires forall k :: 0 <= k < |ws| ==> IsSpace(ws[k])
    requires StartsWith(text, "---") || StartsWith(text, "+++")
    ensures DetectFormat(ws + text) == DetectFormat(text)
  {
    assert text[..3] == "---" || text[..3] == "+++";
    assert text[0] == '-' || text[0] == '+';
    TrimStartAfterSpaces(ws, text);
  }

  lemma {:induction false} TrimStartAfterSpaces(ws: string, text: string)
    requires forall k :: 0 <= k < |ws| ==> IsSpace(ws[k])
    requires text != [] && !IsSpace(text[0])
    ensures TrimStart(ws + text) == text
  {
    if ws != [] {
      assert (ws + text)[1..] == ws[1..] + text;
      TrimStartAfterSpaces(ws[1..], text);
    }
  }
}
