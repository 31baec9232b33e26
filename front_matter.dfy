/**
 * Titles of posts and pages: the front matter's `title`, or, for a file
 * without front matter, a title found in the text itself.
 */
module FrontMatter {
  import opened Wrappers
  import opened Strings

  /** A front-matter value, as the YAML and TOML parsers produce it; dates,
      lists and tables are `Other`. */
  datatype Value = Null | Bool(b: bool) | Num(n: int) | Str(s: string) | Other

  /** JavaScript truthiness of a value. */
  predicate Truthy(v: Value) {
    match v
    case Null => false
    case Bool(b) => b
    case Num(n) => n != 0
    case Str(s) => s != ""
    case Other => true
  }

  /** A front-matter record. */
  type Attrs = map<string, Value>

  /** A file split into its body and its front matter (`undefined` as `None`). */
  datatype Extracted = Extracted(content: string, frontMatter: Option<Attrs>)

  /** The title used when there is none, which the fallback also uses as "not found yet". */
  const Untitled: string := "Untitled Post"

  const DefaultTitleMaxLength: nat := 40

  /** `extractTitle`: the front matter's `title` when it is a string. */
  function ExtractTitle(frontMatter: Option<Attrs>): (r: string)
    ensures frontMatter.Some? && "title" in frontMatter.value && frontMatter.value["title"].Str?
            ==> r == frontMatter.value["title"].s
    ensures !(frontMatter.Some? && "title" in frontMatter.value && frontMatter.value["title"].Str?)
            ==> r == Untitled
  {
    match frontMatter
    case Some(attrs) => if "title" in attrs && attrs["title"].Str? then attrs["title"].s else Untitled
    case None => Untitled
  }

  // ---------------------------------------------------------------------------
  // headings: `/^#{1,3}\s+(.+)$/` on a trimmed line

  /** The index just past the run of `#` that starts at index `k`. */
  function HashEnd(t: string, k: nat): (h: nat)
    requires k <= |t|
    ensures k <= h <= |t|
    ensures forall x :: k <= x < h ==> t[x] == '#'
    ensures h == |t| || t[h] != '#'
    decreases |t| - k
  {
    if k < |t| && t[k] == '#' then HashEnd(t, k + 1) else k
  }

  function Hashes(h: nat): (r: string)
    ensures |r| == h && forall k :: 0 <= k < h ==> r[k] == '#'
  {
    seq(h, _ => '#')
  }

  predicate NoLineTerminator(s: string) {
    forall k :: 0 <= k < |s| ==> !IsLineTerminator(s[k])
  }

  /** What follows `h` leading hashes: white space, then text up to the end
      with no line terminator in it; the heading text is what is left once
      the white space is removed. */
  function HeadingAfter(t: string, h: nat): Option<string>
    requires h <= |t|
  {
    if 1 <= h <= 3 && h < |t| && IsSpace(t[h]) then
      var rest := t[SkipSpaces(t, h)..];
      if rest != [] && NoLineTerminator(rest) then Some(rest) else None
    else None
  }

  /** `/^#{1,3}\s+(.+)$/` on `t`, reading the hashes from index `k` on. */
  function HeadingScan(t: string, k: nat): Option<string>
    requires k <= |t|
    decreases |t| - k
  {
    if k < |t| && t[k] == '#' then HeadingScan(t, k + 1) else HeadingAfter(t, k)
  }

  /** The heading text of a line: the regular expression on the trimmed
      line, and `.replace(/^#{1,3}\s+/, "")` on a match. */
  function HeadingText(line: string): Option<string>
  {
    HeadingScan(Trim(line), 0)
  }

  /** The scan reads the whole run of hashes before deciding. */
  lemma {:induction false} HeadingScanRun(t: string, k: nat)
    requires k <= |t|
    ensures HeadingScan(t, k) == HeadingAfter(t, HashEnd(t, k))
    decreases |t| - k
  {
    if k < |t| && t[k] == '#' {
      HeadingScanRun(t, k + 1);
    }
  }

  /** A heading is one to three hashes, white space and the text, exactly. */
  lemma HeadingShape(line: string)
    requires HeadingText(line).Some?
    ensures var t := Trim(line);
            var h := HashEnd(t, 0);
            var r := HeadingText(line).value;
            && 1 <= h <= 3 && |t| - |r| > h
            && var w := t[h..|t| - |r|];
            && t == Hashes(h) + w + r
            && (forall k :: 0 <= k < |w| ==> IsSpace(w[k]))
            && r != [] && !IsSpace(r[0]) && NoLineTerminator(r)
  {
    var t := Trim(line);
    HeadingScanRun(t, 0);
    var h := HashEnd(t, 0);
    var j := SkipSpaces(t, h);
    SkipSpacesSkips(t, h);
    var w := t[h..j];
    var r := t[j..];
    assert HeadingText(line).value == r;
    assert t[..h] == Hashes(h);
    assert t == t[..h] + w + r;
    forall k | 0 <= k < |w| ensures IsSpace(w[k]) {
      assert w[k] == t[h + k];
    }
    assert r[0] == t[j];
  }

  /** Conversely, one to three hashes, white space and text without line
      terminators make a heading with that text. */
  lemma HeadingOfShape(line: string, h: nat, w: string, r: string)
    requires 1 <= h <= 3 && Trim(line) == Hashes(h) + w + r
    requires |w| >= 1 && forall k :: 0 <= k < |w| ==> IsSpace(w[k])
    requires r != [] && !IsSpace(r[0]) && NoLineTerminator(r)
    ensures HeadingText(line) == Some(r)
  {
    var t := Trim(line);
    assert t[..h] == Hashes(h);
    assert t[h] == w[0];
    HashEndIs(t, 0, h);
    HeadingScanRun(t, 0);
    SkipSpacesIs(t, h, h + |w|);
    assert t[h + |w|..] == r;
  }

  lemma HashEndIs(t: string, k: nat, h: nat)
    requires k <= h < |t| && t[h] != '#' && forall x :: k <= x < h ==> t[x] == '#'
    ensures HashEnd(t, k) == h
    decreases h - k
  {
    if k < h {
      HashEndIs(t, k + 1, h);
    }
  }

  lemma SkipSpacesIs(t: string, i: nat, j: nat)
    requires i <= j <= |t| && (forall k :: i <= k < j ==> IsSpace(t[k])) && (j == |t| || !IsSpace(t[j]))
    ensures SkipSpaces(t, i) == j
    decreases j - i
  {
    if i < j {
      SkipSpacesIs(t, i + 1, j);
    }
  }

  /** Four or more hashes do not make a heading, nor do hashes that are not
      followed by white space. */
  lemma NotHeadings(line: string)
    ensures StartsWith(Trim(line), "####") ==> HeadingText(line).None?
    ensures var t := Trim(line);
            var h := HashEnd(t, 0);
            (h == |t| || !IsSpace(t[h])) ==> HeadingText(line).None?
  {
    var t := Trim(line);
    HeadingScanRun(t, 0);
    if StartsWith(t, "####") {
      assert t[..4] == "####";
      assert t[0] == '#' && t[1] == '#' && t[2] == '#' && t[3] == '#';
    }
  }

  // ---------------------------------------------------------------------------
  // the fallback title

  /** The index of the first line that is a heading. */
  function HeadingIndex(lines: seq<string>, from: nat): (r: Option<nat>)
    requires from <= |lines|
    ensures r.Some? ==> from <= r.value < |lines| && HeadingText(lines[r.value]).Some?
    ensures r.Some? ==> forall j :: from <= j < r.value ==> HeadingText(lines[j]).None?
    ensures r.None? ==> forall j :: from <= j < |lines| ==> HeadingText(lines[j]).None?
    decreases |lines| - from
  {
    if from == |lines| then None
    else if HeadingText(lines[from]).Some? then Some(from)
    else HeadingIndex(lines, from + 1)
  }

  /** The text of the first heading among the lines. */
  function FirstHeading(lines: seq<string>): Option<string>
  {
    match HeadingIndex(lines, 0)
    case Some(i) => HeadingText(lines[i])
    case None => None
  }

  /** `lines.find((line) => line.trim().length > 0)`. */
  function FirstNonBlank(lines: seq<string>): (r: Option<string>)
    ensures r.Some? ==> r.value in lines && Trim(r.value) != []
    ensures r.None? ==> forall j :: 0 <= j < |lines| ==> Trim(lines[j]) == []
  {
    if lines == [] then None
    else if Trim(lines[0]) != [] then Some(lines[0])
    else FirstNonBlank(lines[1..])
  }

  /** The line, cut to `maxLength` characters with `...` after it when longer. */
  function Truncate(line: string, maxLength: nat): (r: string)
    ensures |line| > maxLength ==> r == line[..maxLength] + "..." && |r| == maxLength + 3
    ensures |line| <= maxLength ==> r == line
  {
    if |line| > maxLength then line[..maxLength] + "..." else line
  }

  /** The title `fallbackTitleNoFrontMatter` finds: the first heading's text;
      when there is none, or its text is the "not found" sentinel itself,
      the first non-blank line trimmed and truncated; otherwise `Untitled`. */
  function FallbackTitle(text: string, maxLength: nat): string
  {
    var lines := Split(text, '\n');
    var title := FirstHeading(lines).GetOr(Untitled);
    if title == Untitled then
      match FirstNonBlank(lines)
      case Some(line) => Truncate(Trim(line), maxLength)
      case None => Untitled
    else title
  }

  /** `{ title, noFrontMatter: true }`. */
  function FallbackAttrs(title: string): (attrs: Attrs)
    ensures "title" in attrs && attrs["title"] == Str(title)
    ensures "noFrontMatter" in attrs && Truthy(attrs["noFrontMatter"])
  {
    map["title" := Str(title), "noFrontMatter" := Bool(true)]
  }

  /** The heading loop of `fallbackTitleNoFrontMatter`: `title` starts as
      `Untitled` and takes the first heading's text, then the loop stops. */
  method FindHeadingTitle(lines: seq<string>) returns (title: string)
    ensures title == FirstHeading(lines).GetOr(Untitled)
  {
    title := Untitled;
    var i := 0;
    while i < |lines|
      invariant 0 <= i <= |lines|
      invariant HeadingIndex(lines, i) == HeadingIndex(lines, 0)
    {
      var heading := HeadingText(lines[i]);
      if heading.Some? {
        title := heading.value;
        break;
      }
      i := i + 1;
    }
  }

  /** `fallbackTitleNoFrontMatter`: the text unchanged, with a front matter
      holding the title found in it and the `noFrontMatter` flag. */
  method FallbackTitleNoFrontMatter(text: string, maxLength: nat) returns (r: Extracted)
    ensures r.content == text
    ensures r.frontMatter == Some(FallbackAttrs(FallbackTitle(text, maxLength)))
  {
    var lines := Split(text, '\n');
    var title := FindHeadingTitle(lines);
    if title == Untitled && |lines| > 0 {
      var firstNonEmptyLine := FirstNonBlank(lines);
      if firstNonEmptyLine.Some? {
        title := Truncate(Trim(firstNonEmptyLine.value), maxLength);
      }
    }
    r := Extracted(text, Some(FallbackAttrs(title)));
  }

  // ---------------------------------------------------------------------------
  // what the fallback title is

  /** The first heading wins, wherever it is and whatever lines come before
      or after it, unless its text is the sentinel. */
  lemma FallbackTitleFirstHeading(text: string, maxLength: nat, i: nat)
    requires var lines := Split(text, '\n');
             && i < |lines| && HeadingText(lines[i]).Some? && HeadingText(lines[i]).value != Untitled
             && forall j :: 0 <= j < i ==> HeadingText(lines[j]).None?
    ensures FallbackTitle(text, maxLength) == HeadingText(Split(text, '\n')[i]).value
  {
    HeadingIndexIs(Split(text, '\n'), 0, i);
  }

  lemma {:induction false} HeadingIndexIs(lines: seq<string>, from: nat, i: nat)
    requires from <= i < |lines| && HeadingText(lines[i]).Some?
    requires forall j :: from <= j < i ==> HeadingText(lines[j]).None?
    ensures HeadingIndex(lines, from) == Some(i)
    decreases i - from
  {
    if from < i {
      HeadingIndexIs(lines, from + 1, i);
    }
  }

  /** Without a heading, the title is the first non-blank line, trimmed and
      cut to `maxLength` characters plus `...`, or `Untitled` when every
      line is blank; either way it is at most `maxLength + 3` long or the
      sentinel. */
  lemma FallbackTitleNoHeading(text: string, maxLength: nat)
    requires var lines := Split(text, '\n');
             forall j :: 0 <= j < |lines| ==> HeadingText(lines[j]).None?
    ensures var lines := Split(text, '\n');
            FallbackTitle(text, maxLength)
              == match FirstNonBlank(lines)
                 case Some(line) => Truncate(Trim(line), maxLength)
                 case None => Untitled
    ensures FallbackTitle(text, maxLength) == Untitled || |FallbackTitle(text, maxLength)| <= maxLength + 3
  {
    assert HeadingIndex(Split(text, '\n'), 0).None?;
  }

  /** Empty or all-white-space text is `Untitled`. */
  lemma FallbackTitleBlank(text: string, maxLength: nat)
    requires forall k :: 0 <= k < |text| ==> IsSpace(text[k])
    ensures FallbackTitle(text, maxLength) == Untitled
  {
    var lines := Split(text, '\n');
    SplitKeeps(text, '\n', IsSpace);
    forall j | 0 <= j < |lines| ensures Trim(lines[j]) == [] {
      TrimEmptyIff(lines[j]);
    }
    BlankLines(lines);
  }

  lemma BlankLines(lines: seq<string>)
    requires forall j :: 0 <= j < |lines| ==> Trim(lines[j]) == []
    ensures FirstHeading(lines).None? && FirstNonBlank(lines).None?
  {
    forall j | 0 <= j < |lines| ensures HeadingText(lines[j]).None? {
      assert Trim(lines[j]) == [];
    }
    assert HeadingIndex(lines, 0).None?;
  }

  /** The sentinel quirk: a first heading whose text is exactly `Untitled Post`
      is taken for "no heading", and the first non-blank line, which is at
      the latest that heading's own line, is used instead. */
  lemma FallbackTitleSentinelHeading(text: string, maxLength: nat)
    requires FirstHeading(Split(text, '\n')) == Some(Untitled)
    ensures FirstNonBlank(Split(text, '\n')).Some?
    ensures FallbackTitle(text, maxLength) == Truncate(Trim(FirstNonBlank(Split(text, '\n')).value), maxLength)
  {
    var lines := Split(text, '\n');
    var i := HeadingIndex(lines, 0).value;
    assert Trim(lines[i]) != [];
  }

  /** The front matter the fallback builds gives its title back to `extractTitle`. */
  lemma ExtractTitleOfFallback(title: string)
    ensures ExtractTitle(Some(FallbackAttrs(title))) == title
  {
  }
}
