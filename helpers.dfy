/** Date formatting, the post-list limit and the title slug. */
module Helpers {
  import opened Wrappers
  import opened Strings
  import opened TokenPattern
  import opened Posts

  /** `[year, month, day].join(joiner)`. */
  function FormatDateString(year: string, month: string, day: string, joiner: string): (r: string)
    ensures r == year + joiner + month + joiner + day
  {
    assert [year, month, day][1..] == [month, day] && [month, day][1..] == [day];
    assert Join([month, day], joiner) == month + joiner + day;
    Join([year, month, day], joiner)
  }

  /** How many posts the first placeholder of family `f` in `content` asks for:
      the number in its `(digits)` group, else `defaultLimit`. */
  function RequestedLimit(content: string, f: Family, defaultLimit: Option<nat>): Option<nat>
  {
    match FirstMatch(content, f)
    case None => defaultLimit
    case Some(t) =>
      match FirstArg(content[t.start..t.end])
      case Some(n) => Some(n)
      case None => defaultLimit
  }

  /** `limitPostList`: the posts, cut to the requested limit. */
  function LimitPostList(content: string, f: Family, posts: seq<PostInfo>, defaultLimit: Option<nat>)
    : (r: seq<PostInfo>)
    ensures |r| <= |posts| && r == posts[..|r|]
  {
    match RequestedLimit(content, f, defaultLimit)
    case None => posts
    case Some(n) => posts[..Min(n, |posts|)]
  }

  /** The limit follows the placeholder's own argument: with `(n)` the first
      `n` posts (all of them when there are fewer), without one the first
      `defaultLimit` posts, or all of them when there is no default. */
  lemma LimitFollowsPlaceholder(content: string, f: Family, posts: seq<PostInfo>, defaultLimit: Option<nat>)
    ensures FirstMatch(content, f).Some? && FirstMatch(content, f).value.arg.Some? ==>
      LimitPostList(content, f, posts, defaultLimit)
        == posts[..Min(FirstMatch(content, f).value.arg.value, |posts|)]
    ensures (FirstMatch(content, f).None? || FirstMatch(content, f).value.arg.None?) && defaultLimit.Some? ==>
      LimitPostList(content, f, posts, defaultLimit) == posts[..Min(defaultLimit.value, |posts|)]
    ensures (FirstMatch(content, f).None? || FirstMatch(content, f).value.arg.None?) && defaultLimit.None? ==>
      LimitPostList(content, f, posts, defaultLimit) == posts
  {
    var m := FirstMatch(content, f);
    if m.Some? {
      FirstArgOfToken(content, m.value.start, f);
    }
  }

  /** `{{POSTS_LIST(2)}}` keeps the first two of four posts. */
  lemma LimitPostListExample(content: string, posts: seq<PostInfo>)
    requires content == "Here are some posts: {{POSTS_LIST(2)}}" && |posts| == 4
    ensures LimitPostList(content, PostsList, posts, None) == posts[..2]
  {
    ExampleMatch(content);
    LimitFollowsPlaceholder(content, PostsList, posts, None);
  }

  lemma ExampleMatch(s: string)
    requires s == "Here are some posts: {{POSTS_LIST(2)}}"
    ensures FirstMatch(s, PostsList) == Some(Token(21, 38, Some(2)))
  {
    ExampleToken(s);
    assert s[..21] == "Here are some posts: ";
    forall k | 0 <= k < 21 ensures MatchAt(s, k, PostsList).None? {
      assert s[k] == s[..21][k];
      NoMatchWithoutBrace(s, k, PostsList);
    }
    FirstMatchFromIs(s, PostsList, 0, 21);
  }

  lemma ExampleToken(s: string)
    requires s == "Here are some posts: {{POSTS_LIST(2)}}"
    ensures MatchAt(s, 21, PostsList) == Some(Token(21, 38, Some(2)))
  {
    assert s[21..23] == "{{" && s[23..33] == "POSTS_LIST";
    assert s[33] == '(' && s[34] == '2' && s[35] == ')' && s[36..38] == "}}";
    assert SkipSpaces(s, 23) == 23 && SkipSpaces(s, 36) == 36;
    assert DigitRun(s, 35) == 0;
    assert DigitRun(s, 34) == 1;
    assert s[34..35] == "2";
    assert ParseDigits("2") == 2 by {
      assert "2"[..0] == "";
    }
    assert ArgAt(s, 33) == Some(Arg(2, 36));
  }

  // ---------------------------------------------------------------------------
  // titleToSlug

  predicate IsAlnum(c: char) {
    'a' <= c <= 'z' || '0' <= c <= '9'
  }

  predicate IsSlugChar(c: char) {
    IsAlnum(c) || c == '-'
  }

  /** `.replace(/[^a-z0-9]+/g, "-")`: every maximal run of other characters
      becomes one `-`; `inRun` says the text continues such a run. */
  function CollapseRuns(s: string, inRun: bool): (r: string)
    ensures forall k :: 0 <= k < |r| ==> IsSlugChar(r[k])
    ensures forall k :: !OccursAt(r, "--", k)
    ensures inRun ==> r == [] || r[0] != '-'
  {
    if s == [] then []
    else if IsAlnum(s[0]) then
      var rest := CollapseRuns(s[1..], false);
      ConsNoDoubleDash(s[0], rest); [s[0]] + rest
    else if inRun then CollapseRuns(s[1..], true)
    else
      var rest := CollapseRuns(s[1..], true);
      ConsNoDoubleDash('-', rest); "-" + rest
  }

  /** Putting a character in front of dash-pair-free text keeps it free of
      `--` unless both the character and the text's first are dashes. */
  lemma ConsNoDoubleDash(c: char, s: string)
    requires forall k :: !OccursAt(s, "--", k)
    requires c != '-' || s == [] || s[0] != '-'
    ensures forall k :: !OccursAt([c] + s, "--", k)
  {
    var t := [c] + s;
    forall k ensures !OccursAt(t, "--", k) {
      if k == 0 && 2 <= |t| {
        assert t[0..2] == [c, s[0]];
      } else if 1 <= k && k + 2 <= |t| {
        assert t[k..k + 2] == s[k - 1..k + 1];
        assert !OccursAt(s, "--", k - 1);
      }
    }
  }

  /** `.replace(/^-+/, "")`. */
  function StripLeadingDashes(s: string): (r: string)
    ensures |r| <= |s| && r == s[|s| - |r|..]
    ensures r == [] || r[0] != '-'
  {
    if s != [] && s[0] == '-' then StripLeadingDashes(s[1..]) else s
  }

  /** `.replace(/-+$/, "")`. */
  function StripTrailingDashes(s: string): (r: string)
    ensures |r| <= |s| && r == s[..|r|]
    ensures r == [] || r[|r| - 1] != '-'
  {
    if s != [] && s[|s| - 1] == '-' then StripTrailingDashes(s[..|s| - 1]) else s
  }

  /** `.replace(/^-+|-+$/g, "")`: both ends at once, since the two
      alternatives never overlap in a global replace. */
  function StripDashes(s: string): (r: string)
  {
    StripTrailingDashes(StripLeadingDashes(s))
  }

  /** Only slug characters, and never two dashes in a row. */
  ghost predicate SlugBody(s: string) {
    && (forall k :: 0 <= k < |s| ==> IsSlugChar(s[k]))
    && (forall k :: !OccursAt(s, "--", k))
  }

  /** Every piece of a slug body is one. */
  lemma SlugBodySlice(s: string, i: nat, j: nat)
    requires i <= j <= |s| && SlugBody(s)
    ensures SlugBody(s[i..j])
  {
    var t := s[i..j];
    forall k ensures !OccursAt(t, "--", k) {
      if 0 <= k && k + 2 <= |t| {
        assert t[k] == s[i + k] && t[k + 1] == s[i + k + 1];
        assert !OccursAt(s, "--", i + k);
      }
    }
  }

  /** A URL slug: lower-case letters, digits and single `-` between them. */
  ghost predicate IsSlug(s: string) {
    SlugBody(s) && (s == [] || (s[0] != '-' && s[|s| - 1] != '-'))
  }

  /** `titleToSlug`. */
  function TitleToSlug(title: string): string
  {
    StripDashes(CollapseRuns(ToLower(title), false))
  }

  /** The slug only holds `a`-`z`, `0`-`9` and single inner dashes. */
  lemma TitleToSlugIsSlug(title: string)
    ensures IsSlug(TitleToSlug(title))
  {
    var c := CollapseRuns(ToLower(title), false);
    assert SlugBody(c);
    StripDashesIsSlug(c);
  }

  /** Cutting the dashes off both ends of a slug body leaves a slug. */
  lemma StripDashesIsSlug(c: string)
    requires SlugBody(c)
    ensures IsSlug(StripDashes(c))
  {
    var a := StripLeadingDashes(c);
    SlugBodySlice(c, |c| - |a|, |c|);
    assert c[|c| - |a|..|c|] == a;
    assert SlugBody(a);
    var b := StripTrailingDashes(a);
    SlugBodySlice(a, 0, |b|);
    assert a[0..|b|] == b;
    assert SlugBody(b);
    if b != [] {
      assert b[0] == a[0];
    }
  }

  lemma {:induction false} CollapseRunsOfSlug(s: string, inRun: bool)
    requires SlugBody(s)
    requires inRun ==> s == [] || s[0] != '-'
    ensures CollapseRuns(s, inRun) == s
  {
    if s != [] {
      SlugBodySlice(s, 1, |s|);
      assert s[1..|s|] == s[1..];
      assert !OccursAt(s, "--", 0);
      if |s| >= 2 {
        assert s[0..2] == [s[0], s[1]];
        assert s[1..][0] == s[1];
      }
      CollapseRunsOfSlug(s[1..], !IsAlnum(s[0]));
      assert s == [s[0]] + s[1..];
    }
  }

  lemma ToLowerOfSlug(s: string)
    requires forall k :: 0 <= k < |s| ==> IsSlugChar(s[k])
    ensures ToLower(s) == s
  {
  }

  /** A slug is its own slug. */
  lemma TitleToSlugOfSlug(s: string)
    requires IsSlug(s)
    ensures TitleToSlug(s) == s
  {
    ToLowerOfSlug(s);
    CollapseRunsOfSlug(s, false);
  }

  /** `titleToSlug` is idempotent. */
  lemma TitleToSlugIdempotent(title: string)
    ensures TitleToSlug(TitleToSlug(title)) == TitleToSlug(title)
  {
    TitleToSlugIsSlug(title);
    TitleToSlugOfSlug(TitleToSlug(title));
  }

  /** A slug holds no `.`, so its `.md` file name gives it back (see `ReplaceFirstExtension`). */
  lemma SlugHasNoDot(s: string)
    requires IsSlug(s)
    ensures '.' !in s && '/' !in s
  {
  }

  /** Whether the collapse is inside a run of other characters after `a`. */
  function EndsInRun(a: string, inRun: bool): bool
  {
    if a == [] then inRun else !IsAlnum(a[|a| - 1])
  }

  /** The collapse works left to right: a text's collapse is its prefix's
      collapse followed by the rest's, carried over the run state. */
  lemma {:induction false} CollapseRunsAppend(a: string, b: string, inRun: bool)
    ensures CollapseRuns(a + b, inRun) == CollapseRuns(a, inRun) + CollapseRuns(b, EndsInRun(a, inRun))
  {
    if a != [] {
      assert (a + b)[1..] == a[1..] + b;
      CollapseRunsAppend(a[1..], b, !IsAlnum(a[0]));
    } else {
      assert a + b == b;
    }
  }

  /** The title used as the example for the slug. */
  lemma TitleToSlugExample()
    ensures TitleToSlug("Hello World! This is a Test.") == "hello-world-this-is-a-test"
  {
    var title := "Hello World! This is a Test.";
    SlugExampleLower(title);
    SlugExampleCollapse("hello ", "world! ", "this is ", "a test.");
    SlugExampleStrip();
  }

  // The example's steps, each over short literals.

  lemma SlugExampleLower(title: string)
    requires title == "Hello World! This is a Test."
    ensures ToLower(title) == "hello " + ("world! " + ("this is " + "a test."))
  {
  }

  lemma SlugExampleHello() ensures CollapseRuns("hello ", false) == "hello-" { }
  lemma SlugExampleWorld() ensures CollapseRuns("world! ", true) == "world-" { }
  lemma SlugExampleThisIs() ensures CollapseRuns("this is ", true) == "this-is-" { }
  lemma SlugExampleATest() ensures CollapseRuns("a test.", true) == "a-test-" { }

  lemma SlugExampleCollapse(p1: string, p2: string, p3: string, p4: string)
    requires p1 == "hello " && p2 == "world! " && p3 == "this is " && p4 == "a test."
    ensures CollapseRuns(p1 + (p2 + (p3 + p4)), false) == "hello-" + ("world-" + ("this-is-" + "a-test-"))
  {
    SlugExampleHello();
    SlugExampleWorld();
    SlugExampleThisIs();
    SlugExampleATest();
    CollapseRunsAppend(p3, p4, true);
    CollapseRunsAppend(p2, p3 + p4, true);
    CollapseRunsAppend(p1, p2 + (p3 + p4), false);
  }

  lemma SlugExampleStrip()
    ensures "hello-" + ("world-" + ("this-is-" + "a-test-")) == "hello-world-this-is-a-test-"
    ensures StripDashes("hello-world-this-is-a-test-") == "hello-world-this-is-a-test"
  {
  }
}
