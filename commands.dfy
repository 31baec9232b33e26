/**
 * `quickblog new [title…] [--yaml|-y]`: the new post's title, file name and
 * starting text, dated by the clock's year, month and day.
 */
module Commands {
  import opened Wrappers
  import opened Strings
  import opened Helpers
  import opened IngestFiles
  import opened Environment

  const YamlFlag: string := "--yaml"
  const YamlShortFlag: string := "-y"
  const DefaultTitle: string := "New Post"
  const Placeholder: string := "\n\nWrite your post content here!"

  predicate IsFormatFlag(arg: string) {
    arg == YamlFlag || arg == YamlShortFlag
  }

  /** YAML front matter is asked for by either flag, anywhere among the arguments. */
  predicate UseYaml(args: seq<string>) {
    YamlFlag in args || YamlShortFlag in args
  }

  /** `args.filter((arg) => arg !== "--yaml" && arg !== "-y")`. */
  function Filtered(args: seq<string>): (r: seq<string>)
    ensures forall a :: a in r <==> a in args && !IsFormatFlag(a)
    ensures |r| <= |args|
  {
    if args == [] then []
    else (if IsFormatFlag(args[0]) then [] else [args[0]]) + Filtered(args[1..])
  }

  /** Filtering works piece by piece, so the other arguments keep their order. */
  lemma {:induction false} FilteredAppend(a: seq<string>, b: seq<string>)
    ensures Filtered(a + b) == Filtered(a) + Filtered(b)
    decreases |a|
  {
    if a == [] {
      assert a + b == b;
    } else {
      assert (a + b)[0] == a[0] && (a + b)[1..] == a[1..] + b;
      FilteredAppend(a[1..], b);
    }
  }

  /** A format flag may stand anywhere: it asks for YAML and is no part of the title. */
  lemma FlagAnywhere(before: seq<string>, flag: string, after: seq<string>)
    requires IsFormatFlag(flag)
    ensures UseYaml(before + [flag] + after)
    ensures PostTitle(before + [flag] + after) == PostTitle(before + after)
  {
    var args := before + [flag] + after;
    assert args[|before|] == flag;
    FilteredSkipsFlag(before, flag, after);
  }

  lemma FilteredSkipsFlag(before: seq<string>, flag: string, after: seq<string>)
    requires IsFormatFlag(flag)
    ensures Filtered(before + [flag] + after) == Filtered(before + after)
  {
    FilteredAppend(before + [flag], after);
    FilteredAppend(before, [flag]);
    FilteredAppend(before, after);
    assert Filtered([flag]) == [] + Filtered([flag][1..]);
    assert Filtered(before) + [] == Filtered(before);
  }

  /** `filteredArgs.join(" ").trim() || "New Post"`. */
  function PostTitle(args: seq<string>): (title: string)
    ensures title != []
    ensures Trim(Join(Filtered(args), " ")) == [] ==> title == DefaultTitle
    ensures Trim(Join(Filtered(args), " ")) != [] ==> title == Trim(Join(Filtered(args), " "))
  {
    var t := Trim(Join(Filtered(args), " "));
    if t == [] then DefaultTitle else t
  }

  /** The date of the file name: the year, and the month (`getMonth() + 1`)
      and day padded to two digits. */
  function Year(year: nat): string {
    NatToString(year)
  }

  function TwoDigits(n: nat): (r: string)
    ensures |r| >= 2
    ensures forall k :: 0 <= k < |r| ==> IsDigit(r[k])
  {
    var s := NatToString(n);
    var r := PadStart(s, 2, '0');
    assert forall k :: 0 <= k < |r| - |s| ==> r[k] == '0';
    assert r[|r| - |s|..] == s;
    forall k | 0 <= k < |r| ensures IsDigit(r[k]) {
      if k >= |r| - |s| {
        assert r[k] == s[k - (|r| - |s|)];
      }
    }
    r
  }

  /** The new post's file name below `posts`: `Y-MM-DD-slug.md`. */
  function NewPostName(title: string, year: nat, monthIndex: nat, day: nat): string {
    FormatDateString(Year(year), TwoDigits(monthIndex + 1), TwoDigits(day), "-") + "-" + TitleToSlug(title) + ".md"
  }

  /** `posts/${formatDateString(year, month, day)}-${slug}.md`. */
  function NewPostPath(title: string, year: nat, monthIndex: nat, day: nat): string {
    "posts/" + NewPostName(title, year, monthIndex, day)
  }

  /** The front matter the new post starts with: a quoted title, in YAML
      or in TOML. */
  function FrontMatterText(useYaml: bool, title: string): string {
    if useYaml then "---\ntitle: \"" + title + "\"\n---" else "+++\ntitle = \"" + title + "\"\n+++"
  }

  /** The new post's text: the front matter, a blank line and the placeholder sentence. */
  function NewPostText(useYaml: bool, title: string): string {
    FrontMatterText(useYaml, title) + Placeholder
  }

  /** How `createNewPost` ends: the process exits when `posts` is missing or
      is no directory, or when the file exists; otherwise the file is
      written in the reported format. */
  datatype NewPost =
    | PostsMissing
    | PostsNotADirectory
    | AlreadyExists(path: string)
    | Created(path: string, text: string, format: string)

  /** `createNewPost()`: `argv` is `Deno.args`, whose first element is the
      command; the date is the clock's year, month index and day. */
  function CreateNewPost(argv: seq<string>, stat: map<string, Stat>, year: nat, monthIndex: nat, day: nat)
    : (r: NewPost)
    ensures "posts" !in stat <==> r == PostsMissing
    ensures r == PostsNotADirectory <==> "posts" in stat && !stat["posts"].isDirectory
    ensures var args := argv[Min(1, |argv|)..];
            var title := PostTitle(args);
            var path := NewPostPath(title, year, monthIndex, day);
            "posts" in stat && stat["posts"].isDirectory ==>
              (path in stat ==> r == AlreadyExists(path))
              && (path !in stat ==>
                    r == Created(path, NewPostText(UseYaml(args), title), if UseYaml(args) then "YAML" else "TOML"))
  {
    if "posts" !in stat then PostsMissing
    else if !stat["posts"].isDirectory then PostsNotADirectory
    else
      var args := argv[Min(1, |argv|)..];
      var useYaml := UseYaml(args);
      var title := PostTitle(args);
      var fileName := NewPostPath(title, year, monthIndex, day);
      if fileName in stat then AlreadyExists(fileName)
      else Created(fileName, NewPostText(useYaml, title), if useYaml then "YAML" else "TOML")
  }

  /** The new post's text starts with the delimiter that sends it to the
      parser of the format asked for. */
  lemma NewPostFormat(useYaml: bool, title: string)
    ensures DetectFormat(NewPostText(useYaml, title)) == (if useYaml then Yaml else Toml)
  {
    var text := NewPostText(useYaml, title);
    var delimiter := if useYaml then "---" else "+++";
    assert text == delimiter + (text[3..]);
    assert text[0] == delimiter[0];
    assert text[|text| - 1] == '!';
    TrimIdentity(text);
    assert text[..3] == delimiter;
  }

  /** The date parts hold neither `-` nor `/`. */
  lemma DigitsOnly(s: string)
    requires forall k :: 0 <= k < |s| ==> IsDigit(s[k])
    ensures '-' !in s && '/' !in s && '.' !in s
  {
  }

  /** The generated file is found below `posts` under its name, and that
      name gives the post the key `YMMDD` and the URL
      `/posts/Y/MM/DD/slug/` with the title's slug, whatever the title. */
  lemma NewPostRoundTrip(title: string, year: nat, monthIndex: nat, day: nat)
    ensures var name := NewPostName(title, year, monthIndex, day);
            var y, m, d := Year(year), TwoDigits(monthIndex + 1), TwoDigits(day);
            && NewPostPath(title, year, monthIndex, day) == "posts/" + name
            && MarkdownFiles([File(name)], "") == [name]
            && Derive(name) == PostIDUrl(y + m + d, "/posts/" + y + "/" + m + "/" + d + "/" + TitleToSlug(title) + "/")
            && FileName(NewPostPath(title, year, monthIndex, day)) == name
  {
    var slug := TitleToSlug(title);
    TitleToSlugIsSlug(title);
    SlugHasNoDot(slug);
    NameRoundTrip(NewPostName(title, year, monthIndex, day), Year(year), TwoDigits(monthIndex + 1), TwoDigits(day), slug);
  }

  /** The same for any digit-only date parts and any slug without `.` or `/`. */
  lemma NameRoundTrip(name: string, y: string, m: string, d: string, slug: string)
    requires name == y + "-" + m + "-" + d + "-" + slug + ".md"
    requires forall k :: 0 <= k < |y| ==> IsDigit(y[k])
    requires forall k :: 0 <= k < |m| ==> IsDigit(m[k])
    requires forall k :: 0 <= k < |d| ==> IsDigit(d[k])
    requires '.' !in slug && '/' !in slug
    ensures MarkdownFiles([File(name)], "") == [name]
    ensures Derive(name) == PostIDUrl(y + m + d, "/posts/" + y + "/" + m + "/" + d + "/" + slug + "/")
    ensures FileName("posts/" + name) == name
  {
    DigitsOnly(y);
    DigitsOnly(m);
    DigitsOnly(d);
    DeriveTopName(y, m, d, slug);
    assert '/' !in name;
    FileNameBelow("posts", name);
    assert "posts" + "/" + name == "posts/" + name;
    ConcatEnds(y + "-" + m + "-" + d + "-" + slug, ".md");
    assert MarkdownFiles([File(name)], "") == FoundIn(File(name), "") + MarkdownFiles([], "");
  }
}
