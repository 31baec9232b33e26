/**
 * Placeholder expansion in pages and the index: the first `{{POSTS_LIST}}`
 * becomes the post list and the first `{{LATEST_POSTS}}` the latest posts'
 * articles, each optionally limited by `(n)`.
 */
module ContentModifier {
  import opened Wrappers
  import opened Strings
  import opened TokenPattern
  import opened Helpers
  import opened Posts
  import opened Environment
  import opened RenderMarkdown

  /** The text `String.prototype.replace` inserts for a string replacement
      with a pattern that has no capture groups: `$$` is `$`, `$&` the
      matched text, `` $` `` the text before the match and `$'` the text after
      it; every other `$` stands for itself. */
  function Substitute(rep: string, before: string, matched: string, after: string): string
    decreases |rep|
  {
    if rep == [] then ""
    else if |rep| >= 2 && rep[0] == '$' && rep[1] == '$' then "$" + Substitute(rep[2..], before, matched, after)
    else if |rep| >= 2 && rep[0] == '$' && rep[1] == '&' then matched + Substitute(rep[2..], before, matched, after)
    else if |rep| >= 2 && rep[0] == '$' && rep[1] == '`' then before + Substitute(rep[2..], before, matched, after)
    else if |rep| >= 2 && rep[0] == '$' && rep[1] == '\'' then after + Substitute(rep[2..], before, matched, after)
    else [rep[0]] + Substitute(rep[1..], before, matched, after)
  }

  /** A replacement without `$` is inserted as it is. */
  lemma {:induction false} SubstituteLiteral(rep: string, before: string, matched: string, after: string)
    requires '$' !in rep
    ensures Substitute(rep, before, matched, after) == rep
    decreases |rep|
  {
    if rep != [] {
      assert rep[0] != '$';
      assert '$' !in rep[1..];
      SubstituteLiteral(rep[1..], before, matched, after);
    }
  }

  /** `$&` puts the matched text back: replacing a match with `$&` changes nothing. */
  lemma SubstituteMatch(before: string, matched: string, after: string)
    ensures Substitute("$&", before, matched, after) == matched
  {
    assert "$&"[2..] == "";
  }

  /** `content.replace(regex, rep)` for the match `t`. */
  function ReplaceToken(content: string, t: Token, rep: string): (r: string)
    requires t.start <= t.end <= |content|
  {
    content[..t.start] + Substitute(rep, content[..t.start], content[t.start..t.end], content[t.end..])
    + content[t.end..]
  }

  /** `includePostListPartial(content, posts)`: the first `POSTS_LIST`
      placeholder replaced by the post list of as many posts as it asks for;
      content without one is returned unchanged. */
  function IncludePostListPartial(content: string, posts: seq<PostInfo>): (r: string)
    ensures FirstMatch(content, PostsList).None? ==> r == content
    ensures FirstMatch(content, PostsList).Some? ==>
              r == ReplaceToken(content, FirstMatch(content, PostsList).value,
                                PostListMarkdown(LimitPostList(content, PostsList, posts, None)))
  {
    match FirstMatch(content, PostsList)
    case None => content
    case Some(t) =>
      var limited := LimitPostList(content, PostsList, posts, None);
      ReplaceToken(content, t, PostListMarkdown(limited))
  }

  /** `includeLatestPostsPartial(content, posts)`: the same for the first
      `LATEST_POSTS` placeholder and the posts' articles, one post by default. */
  function IncludeLatestPostsPartial(env: Env, content: string, posts: seq<PostInfo>): (r: string)
    ensures FirstMatch(content, LatestPosts).None? ==> r == content
    ensures FirstMatch(content, LatestPosts).Some? ==>
              r == ReplaceToken(content, FirstMatch(content, LatestPosts).value,
                                LatestPostsMarkdown(env, LimitPostList(content, LatestPosts, posts, Some(1))))
  {
    match FirstMatch(content, LatestPosts)
    case None => content
    case Some(t) =>
      var limited := LimitPostList(content, LatestPosts, posts, Some(1));
      ReplaceToken(content, t, LatestPostsMarkdown(env, limited))
  }

  /** A concatenation of fragments that avoid a character avoids it. */
  lemma {:induction false} ConcatAvoids(f: PostInfo -> string, posts: seq<PostInfo>, c: char)
    requires forall i :: 0 <= i < |posts| ==> c !in f(posts[i])
    ensures c !in Concat(f, posts)
    decreases |posts|
  {
    if posts != [] {
      var front := posts[..|posts| - 1];
      assert forall i :: 0 <= i < |front| ==> front[i] == posts[i];
      ConcatAvoids(f, front, c);
    }
  }

  /** The posts the placeholder's argument selects: `(n)` keeps the first
      `n`, none keeps the first `default` or, with no default, all. */
  function Selected(arg: Option<nat>, default: Option<nat>, posts: seq<PostInfo>): seq<PostInfo> {
    match arg
    case Some(n) => posts[..Min(n, |posts|)]
    case None =>
      match default
      case Some(n) => posts[..Min(n, |posts|)]
      case None => posts
  }

  /** With posts whose lines hold no `$`, the leftmost `POSTS_LIST`
      placeholder is cut out and the post list of the posts it selects put in
      its place; the text before and after it, later placeholders included,
      is kept. Without an argument every post is listed. */
  lemma PostListExpansion(content: string, posts: seq<PostInfo>)
    requires forall i :: 0 <= i < |posts| ==> '$' !in PostListItem(posts[i])
    requires FirstMatch(content, PostsList).Some?
    ensures var t := FirstMatch(content, PostsList).value;
            IncludePostListPartial(content, posts)
              == content[..t.start] + PostListMarkdown(Selected(t.arg, None, posts)) + content[t.end..]
    ensures FirstMatch(content, PostsList).value.arg.None? ==>
              Selected(FirstMatch(content, PostsList).value.arg, None, posts) == posts
  {
    var t := FirstMatch(content, PostsList).value;
    LimitFollowsPlaceholder(content, PostsList, posts, None);
    var limited := Selected(t.arg, None, posts);
    assert LimitPostList(content, PostsList, posts, None) == limited;
    assert forall i :: 0 <= i < |limited| ==> limited[i] == posts[i];
    ConcatAvoids(PostListItem, limited, '$');
    SubstituteLiteral(PostListMarkdown(limited), content[..t.start], content[t.start..t.end], content[t.end..]);
  }

  /** With articles that hold no `$`, the leftmost `LATEST_POSTS`
      placeholder is replaced by the articles of the posts it selects;
      without an argument that is the first post's article alone. */
  lemma LatestPostsExpansion(env: Env, content: string, posts: seq<PostInfo>)
    requires forall i :: 0 <= i < |posts| ==> '$' !in LatestPost(env, posts[i])
    requires FirstMatch(content, LatestPosts).Some?
    ensures var t := FirstMatch(content, LatestPosts).value;
            IncludeLatestPostsPartial(env, content, posts)
              == content[..t.start] + LatestPostsMarkdown(env, Selected(t.arg, Some(1), posts)) + content[t.end..]
    ensures FirstMatch(content, LatestPosts).value.arg.None? && posts != [] ==>
              LatestPostsMarkdown(env, Selected(FirstMatch(content, LatestPosts).value.arg, Some(1), posts))
                == LatestPost(env, posts[0])
  {
    var t := FirstMatch(content, LatestPosts).value;
    LimitFollowsPlaceholder(content, LatestPosts, posts, Some(1));
    var limited := Selected(t.arg, Some(1), posts);
    assert LimitPostList(content, LatestPosts, posts, Some(1)) == limited;
    assert forall i :: 0 <= i < |limited| ==> limited[i] == posts[i];
    var f := p => LatestPost(env, p);
    ConcatAvoids(f, limited, '$');
    SubstituteLiteral(LatestPostsMarkdown(env, limited), content[..t.start], content[t.start..t.end], content[t.end..]);
    if t.arg.None? && posts != [] {
      assert limited == [posts[0]];
      assert limited[..0] == [];
    }
  }

  /** `PostListExpansion` for the leftmost placeholder `t` and the list `x`
      it asks for. */
  lemma PostListSplice(content: string, posts: seq<PostInfo>, t: Token, x: string)
    requires forall i :: 0 <= i < |posts| ==> '$' !in PostListItem(posts[i])
    requires FirstMatch(content, PostsList) == Some(t)
    requires x == PostListMarkdown(Selected(t.arg, None, posts))
    ensures t.start < t.end <= |content| && MatchAt(content, t.start, PostsList) == Some(t)
    ensures IncludePostListPartial(content, posts) == content[..t.start] + x + content[t.end..]
  {
    PostListExpansion(content, posts);
  }

  /** `LatestPostsExpansion` for the leftmost placeholder `t` and the
      articles `x` it asks for. */
  lemma LatestPostsSplice(env: Env, content: string, posts: seq<PostInfo>, t: Token, x: string)
    requires forall i :: 0 <= i < |posts| ==> '$' !in LatestPost(env, posts[i])
    requires FirstMatch(content, LatestPosts) == Some(t)
    requires x == LatestPostsMarkdown(env, Selected(t.arg, Some(1), posts))
    ensures t.start < t.end <= |content| && MatchAt(content, t.start, LatestPosts) == Some(t)
    ensures IncludeLatestPostsPartial(env, content, posts) == content[..t.start] + x + content[t.end..]
  {
    LatestPostsExpansion(env, content, posts);
  }

  /** The two placeholder families never match at the same place, so each
      expansion leaves the other family's placeholders to the other. */
  lemma FamiliesDisjoint(s: string, i: nat)
    requires i <= |s|
    ensures MatchAt(s, i, PostsList).None? || MatchAt(s, i, LatestPosts).None?
  {
  }

  /** Expanding the post list puts the list `x` in place of the leftmost
      `POSTS_LIST` placeholder `t`. Every `LATEST_POSTS` placeholder survives
      it with its argument: none overlaps `t`, one before `t` stays where it
      is, and one after `t` moves by the change in length; so the latest
      posts are still found afterwards. The mirror lemmas say the same of
      expanding the latest posts and the `POSTS_LIST` placeholders. */
  lemma PostListKeepsEarlierLatestPosts(content: string, posts: seq<PostInfo>, t: Token, x: string, k: nat)
    requires forall i :: 0 <= i < |posts| ==> '$' !in PostListItem(posts[i])
    requires FirstMatch(content, PostsList) == Some(t)
    requires x == PostListMarkdown(Selected(t.arg, None, posts))
    requires k <= |content| && MatchAt(content, k, LatestPosts).Some?
    requires MatchAt(content, k, LatestPosts).value.end <= t.start
    ensures k <= |IncludePostListPartial(content, posts)| && MatchAt(IncludePostListPartial(content, posts), k, LatestPosts) == MatchAt(content, k, LatestPosts)
  {
    PostListSplice(content, posts, t, x);
    ExpansionBefore(content, t, x, IncludePostListPartial(content, posts), k, LatestPosts);
  }

  lemma PostListMovesLaterLatestPosts(content: string, posts: seq<PostInfo>, t: Token, x: string, k: nat, u: Token, k2: nat)
    requires forall i :: 0 <= i < |posts| ==> '$' !in PostListItem(posts[i])
    requires FirstMatch(content, PostsList) == Some(t)
    requires x == PostListMarkdown(Selected(t.arg, None, posts))
    requires k <= |content| && MatchAt(content, k, LatestPosts) == Some(u) && t.end <= k
    requires k2 == Shifted(k, t, |x|)
    ensures k2 <= |IncludePostListPartial(content, posts)|
    ensures MatchAt(IncludePostListPartial(content, posts), k2, LatestPosts) == Some(Token(k2, k2 + (u.end - k), u.arg))
  {
    PostListSplice(content, posts, t, x);
    ExpansionAfter(content, t, x, IncludePostListPartial(content, posts), k, LatestPosts, u, k2);
  }

  lemma PostListKeepsLatestPosts(content: string, posts: seq<PostInfo>, t: Token, x: string, k: nat)
    requires forall i :: 0 <= i < |posts| ==> '$' !in PostListItem(posts[i])
    requires FirstMatch(content, PostsList) == Some(t)
    requires x == PostListMarkdown(Selected(t.arg, None, posts))
    requires k <= |content| && MatchAt(content, k, LatestPosts).Some?
    ensures MatchAt(content, k, LatestPosts).value.end <= t.start || t.end <= k
    ensures FirstMatch(IncludePostListPartial(content, posts), LatestPosts).Some?
  {
    PostListSplice(content, posts, t, x);
    FamiliesDisjoint(content, t.start);
    Apart(content, t, PostsList, k, LatestPosts);
    ExpansionFinds(content, t, PostsList, x, IncludePostListPartial(content, posts), k, LatestPosts);
  }

  lemma LatestPostsKeepEarlierPostList(env: Env, content: string, posts: seq<PostInfo>, t: Token, x: string, k: nat)
    requires forall i :: 0 <= i < |posts| ==> '$' !in LatestPost(env, posts[i])
    requires FirstMatch(content, LatestPosts) == Some(t)
    requires x == LatestPostsMarkdown(env, Selected(t.arg, Some(1), posts))
    requires k <= |content| && MatchAt(content, k, PostsList).Some?
    requires MatchAt(content, k, PostsList).value.end <= t.start
    ensures k <= |IncludeLatestPostsPartial(env, content, posts)| && MatchAt(IncludeLatestPostsPartial(env, content, posts), k, PostsList) == MatchAt(content, k, PostsList)
  {
    LatestPostsSplice(env, content, posts, t, x);
    ExpansionBefore(content, t, x, IncludeLatestPostsPartial(env, content, posts), k, PostsList);
  }

  lemma LatestPostsMoveLaterPostList(env: Env, content: string, posts: seq<PostInfo>, t: Token, x: string, k: nat, u: Token, k2: nat)
    requires forall i :: 0 <= i < |posts| ==> '$' !in LatestPost(env, posts[i])
    requires FirstMatch(content, LatestPosts) == Some(t)
    requires x == LatestPostsMarkdown(env, Selected(t.arg, Some(1), posts))
    requires k <= |content| && MatchAt(content, k, PostsList) == Some(u) && t.end <= k
    requires k2 == Shifted(k, t, |x|)
    ensures k2 <= |IncludeLatestPostsPartial(env, content, posts)|
    ensures MatchAt(IncludeLatestPostsPartial(env, content, posts), k2, PostsList) == Some(Token(k2, k2 + (u.end - k), u.arg))
  {
    LatestPostsSplice(env, content, posts, t, x);
    ExpansionAfter(content, t, x, IncludeLatestPostsPartial(env, content, posts), k, PostsList, u, k2);
  }

  lemma LatestPostsKeepPostList(env: Env, content: string, posts: seq<PostInfo>, t: Token, x: string, k: nat)
    requires forall i :: 0 <= i < |posts| ==> '$' !in LatestPost(env, posts[i])
    requires FirstMatch(content, LatestPosts) == Some(t)
    requires x == LatestPostsMarkdown(env, Selected(t.arg, Some(1), posts))
    requires k <= |content| && MatchAt(content, k, PostsList).Some?
    ensures MatchAt(content, k, PostsList).value.end <= t.start || t.end <= k
    ensures FirstMatch(IncludeLatestPostsPartial(env, content, posts), PostsList).Some?
  {
    LatestPostsSplice(env, content, posts, t, x);
    FamiliesDisjoint(content, t.start);
    Apart(content, t, LatestPosts, k, PostsList);
    ExpansionFinds(content, t, LatestPosts, x, IncludeLatestPostsPartial(env, content, posts), k, PostsList);
  }

  /** A space before the argument, and an argument of four digits, make the
      text no placeholder at all: it is left as it is. */
  lemma NotPlaceholders(s: string, posts: seq<PostInfo>)
    requires s == "{{POSTS_LIST (5)}}" || s == "{{POSTS_LIST(1234)}}"
    ensures FirstMatch(s, PostsList).None?
    ensures IncludePostListPartial(s, posts) == s
  {
    if s == "{{POSTS_LIST (5)}}" {
      SpacedArgument(s);
    } else {
      LongArgument(s);
    }
  }

  /** A text whose only `{` are its first two and that does not match at
      its start matches nowhere. */
  lemma OnlyAtStart(s: string, f: Family)
    requires |s| >= 3 && s[..2] == "{{" && s[2] != '{' && '{' !in s[2..]
    requires MatchAt(s, 0, f).None?
    ensures FirstMatch(s, f).None?
  {
    assert MatchAt(s, 1, f).None?;
    NoMatchAfter(s, 2, f);
  }

  /** Where no `{` is left, no placeholder starts. */
  lemma NoMatchAfter(s: string, i: nat, f: Family)
    requires i <= |s| && '{' !in s[i..]
    ensures forall k :: i <= k <= |s| ==> MatchAt(s, k, f).None?
  {
    forall k | i <= k <= |s| ensures MatchAt(s, k, f).None? {
      if k < |s| {
        assert s[k] == s[i..][k - i];
      }
      NoMatchWithoutBrace(s, k, f);
    }
  }

  lemma SpacedArgument(s: string)
    requires s == "{{POSTS_LIST (5)}}"
    ensures FirstMatch(s, PostsList).None?
  {
    SpacedAfterName(s, PostsList, " (5)}}");
  }

  /** A space after the name and then `(`: the argument is not allowed
      there, and `(` is not the closing `}}`. */
  lemma SpacedAfterName(s: string, f: Family, rest: string)
    requires s == "{{" + f + rest
    requires |rest| >= 2 && rest[0] == ' ' && rest[1] == '(' && '{' !in rest
    ensures FirstMatch(s, f).None?
  {
    var k := 2 + |f|;
    NameHead(s, f, rest);
    assert s[k] == rest[0] && s[k + 1] == rest[1];
    assert ArgAt(s, k).None?;
    assert SkipSpaces(s, k + 1) == k + 1;
    assert SkipSpaces(s, k) == k + 1;
    assert MatchAt(s, 0, f).None?;
    OnlyAtStart(s, f);
  }

  lemma LongArgument(s: string)
    requires s == "{{POSTS_LIST(1234)}}"
    ensures FirstMatch(s, PostsList).None?
  {
    LongAfterName(s, PostsList, "(1234)}}");
  }

  /** Four digits in the parentheses are more than the pattern's three,
      and `(` is not the closing `}}`. */
  lemma LongAfterName(s: string, f: Family, rest: string)
    requires s == "{{" + f + rest
    requires |rest| >= 6 && rest[0] == '(' && rest[5] == ')' && '{' !in rest
    requires forall x :: 1 <= x < 5 ==> IsDigit(rest[x])
    ensures FirstMatch(s, f).None?
  {
    var k := 2 + |f|;
    NameHead(s, f, rest);
    assert s[k..] == rest;
    DigitRunUnique(s, k + 1, 4);
    assert ArgAt(s, k).None?;
    assert !IsSpace('(');
    assert SkipSpaces(s, k) == k;
    assert MatchAt(s, 0, f).None?;
    OnlyAtStart(s, f);
  }

  /** The opening braces and the name at the start of `s`, and no other `{`. */
  lemma NameHead(s: string, f: Family, rest: string)
    requires s == "{{" + f + rest && '{' !in rest
    ensures |s| >= 3 && s[..2] == "{{" && s[2] != '{' && '{' !in s[2..]
    ensures Doubled(s, 0, '{') && SkipSpaces(s, 2) == 2 && OccursAt(s, f, 2)
  {
    assert s[2..] == f + rest;
    assert s[2] == f[0];
    assert s[2..2 + |f|] == f;
    forall c | c in f ensures c != '{' {
      var k :| 0 <= k < |f| && f[k] == c;
    }
  }
}
