/**
 * The placeholder regular expressions of the content modifier,
 * `/\{\{\s*POSTS_LIST(?:\(\d{1,3}\))?\s*\}\}/` and the same with
 * `LATEST_POSTS`, and the argument pattern `/\(\d{1,3}\)/` that the post-list
 * limit looks for inside a match. Neither is global, so every use is about
 * the leftmost match. At each start position the match is deterministic:
 * `\s*` before the name must stop at the name's first letter, the optional
 * group is taken exactly when `(`, one to three digits and `)` follow the
 * name, and the final `\s*` must stop at `}`.
 */
module TokenPattern {
  import opened Wrappers
  import opened Strings

  /** A placeholder family, named by the word between the braces: a word
      that does not start with white space and holds no `(` or `{`. */
  type Family = n: string | |n| >= 1 && !IsSpace(n[0]) && forall k :: 0 <= k < |n| ==> n[k] != '(' && n[k] != '{'
    witness "POSTS_LIST"

  /** `{{POSTS_LIST}}` and `{{LATEST_POSTS}}`. */
  const PostsList: Family := "POSTS_LIST"
  const LatestPosts: Family := "LATEST_POSTS"

  /** A match: where it starts, the index just past it, and its argument. */
  datatype Token = Token(start: nat, end: nat, arg: Option<nat>)

  /** A matched `(digits)` group: its number and the index just past `)`. */
  datatype Arg = Arg(value: nat, end: nat)

  /** The number of consecutive digits from index `i`. */
  function DigitRun(s: string, i: nat): (n: nat)
    requires i <= |s|
    ensures i + n <= |s|
    ensures forall k :: i <= k < i + n ==> IsDigit(s[k])
    ensures i + n == |s| || !IsDigit(s[i + n])
    decreases |s| - i
  {
    if i < |s| && IsDigit(s[i]) then 1 + DigitRun(s, i + 1) else 0
  }

  /** A digit run is determined by where the digits stop. */
  lemma DigitRunUnique(s: string, i: nat, n: nat)
    requires i + n <= |s|
    requires forall k :: i <= k < i + n ==> IsDigit(s[k])
    requires i + n == |s| || !IsDigit(s[i + n])
    ensures DigitRun(s, i) == n
  {
  }

  /** `\(\d{1,3}\)` anchored at index `i`. */
  function ArgAt(s: string, i: nat): (r: Option<Arg>)
    requires i <= |s|
    ensures r.Some? ==> i < r.value.end <= |s|
  {
    if i < |s| && s[i] == '(' then
      var n := DigitRun(s, i + 1);
      if 1 <= n <= 3 && i + 1 + n < |s| && s[i + 1 + n] == ')'
      then Some(Arg(ParseDigits(s[i + 1..i + 1 + n]), i + 2 + n))
      else None
    else None
  }

  /** Two `c` characters at index `i`: the pattern's `\{\{` and `\}\}`. */
  predicate Doubled(s: string, i: nat, c: char) {
    i + 1 < |s| && s[i] == c && s[i + 1] == c
  }

  /** The placeholder pattern of family `f` anchored at index `i`. */
  function MatchAt(s: string, i: nat, f: Family): (r: Option<Token>)
    requires i <= |s|
    ensures r.Some? ==> r.value.start == i && i < r.value.end <= |s|
  {
    if !Doubled(s, i, '{') then None
    else
      var j := SkipSpaces(s, i + 2);
      if !OccursAt(s, f, j) then None
      else
        var k := j + |f|;
        var a := ArgAt(s, k);
        var l := SkipSpaces(s, if a.Some? then a.value.end else k);
        if Doubled(s, l, '}')
        then Some(Token(i, l + 2, if a.Some? then Some(a.value.value) else None))
        else None
  }

  /** The leftmost match at or after index `i`. */
  function FirstMatchFrom(s: string, f: Family, i: nat): (r: Option<Token>)
    requires i <= |s|
    ensures r.Some? ==> i <= r.value.start <= |s| && MatchAt(s, r.value.start, f) == r
    ensures r.Some? ==> forall k :: i <= k < r.value.start ==> MatchAt(s, k, f).None?
    ensures r.None? ==> forall k :: i <= k <= |s| ==> MatchAt(s, k, f).None?
    decreases |s| - i
  {
    var m := MatchAt(s, i, f);
    if m.Some? || i == |s| then m else FirstMatchFrom(s, f, i + 1)
  }

  /** A match starts with `{`. */
  lemma NoMatchWithoutBrace(s: string, i: nat, f: Family)
    requires i <= |s| && (i == |s| || s[i] != '{')
    ensures MatchAt(s, i, f).None?
  {
  }

  /** A match preceded by no other match is the leftmost one. */
  lemma FirstMatchFromIs(s: string, f: Family, i: nat, p: nat)
    requires i <= p <= |s| && MatchAt(s, p, f).Some?
    requires forall k :: i <= k < p ==> MatchAt(s, k, f).None?
    ensures FirstMatchFrom(s, f, i) == MatchAt(s, p, f)
  {
  }

  /** A text with a match somewhere has a leftmost one. */
  lemma SomeMatchFound(s: string, k: nat, f: Family)
    requires k <= |s| && MatchAt(s, k, f).Some?
    ensures FirstMatch(s, f).Some?
  {
  }

  /** `content.match(regex)` / `regex.test(content)` / the match `content.replace` uses. */
  function FirstMatch(s: string, f: Family): Option<Token>
  {
    FirstMatchFrom(s, f, 0)
  }

  /** `text.match(/\(\d{1,3}\)/)`, from index `p` on, as the number it encloses. */
  function FirstArgFrom(text: string, p: nat): (r: Option<nat>)
    requires p <= |text|
    decreases |text| - p
  {
    if p == |text| then None
    else match ArgAt(text, p)
      case Some(a) => Some(a.value)
      case None => FirstArgFrom(text, p + 1)
  }

  function FirstArg(text: string): Option<nat>
  {
    FirstArgFrom(text, 0)
  }

  /** Positions without `(` cannot start the argument pattern. */
  lemma {:induction false} FirstArgSkip(text: string, p: nat, q: nat)
    requires p <= q <= |text|
    requires forall x :: p <= x < q ==> text[x] != '('
    ensures FirstArgFrom(text, p) == FirstArgFrom(text, q)
    decreases q - p
  {
    if p < q {
      FirstArgSkip(text, p + 1, q);
    }
  }

  /** The argument pattern read inside a window of the text that holds the
      whole group reads the same group, shifted to the window. */
  lemma ArgAtWindow(s: string, lo: nat, hi: nat, k: nat)
    requires lo <= k <= hi <= |s|
    requires ArgAt(s, k).Some? && ArgAt(s, k).value.end <= hi
    ensures ArgAt(s[lo..hi], k - lo)
         == Some(Arg(ArgAt(s, k).value.value, ArgAt(s, k).value.end - lo))
  {
    var m := s[lo..hi];
    var n := DigitRun(s, k + 1);
    var p := k - lo;
    assert m[p] == s[k];
    forall x | p + 1 <= x < p + 1 + n ensures IsDigit(m[x]) {
      assert m[x] == s[lo + x];
    }
    assert m[p + 1 + n] == s[k + 1 + n];
    DigitRunUnique(m, p + 1, n);
    assert m[p + 1..p + 1 + n] == s[k + 1..k + 1 + n];
  }

  /** The parts of a match: the braces at `i`, the name at `j` after the
      spaces, the optional argument at `k`, and the closing braces at `l`
      after the spaces that follow `from`. */
  lemma MatchShape(s: string, i: nat, f: Family) returns (j: nat, k: nat, from: nat, l: nat)
    requires i <= |s| && MatchAt(s, i, f).Some?
    ensures Doubled(s, i, '{') && j == SkipSpaces(s, i + 2) && OccursAt(s, f, j)
    ensures k == j + |f| <= |s|
    ensures from == (if ArgAt(s, k).Some? then ArgAt(s, k).value.end else k) && k <= from <= |s|
    ensures l == SkipSpaces(s, from) && Doubled(s, l, '}')
    ensures MatchAt(s, i, f).value
         == Token(i, l + 2, if ArgAt(s, k).Some? then Some(ArgAt(s, k).value.value) else None)
  {
    j := SkipSpaces(s, i + 2);
    k := j + |f|;
    from := if ArgAt(s, k).Some? then ArgAt(s, k).value.end else k;
    l := SkipSpaces(s, from);
  }

  /** The `n` characters from index `i` of `s` stand from index `p` in `t`. */
  predicate CopiedAt(s: string, i: nat, n: nat, t: string, p: nat)
    decreases n
  {
    i + n <= |s| && p + n <= |t| && (n == 0 || (t[p] == s[i] && CopiedAt(s, i + 1, n - 1, t, p + 1)))
  }

  lemma {:induction false} CopiedChars(s: string, i: nat, n: nat, t: string, p: nat)
    requires CopiedAt(s, i, n, t, p)
    ensures forall y :: p <= y < p + n ==> t[y] == s[y - p + i]
    decreases n
  {
    if n > 0 {
      CopiedChars(s, i + 1, n - 1, t, p + 1);
    }
  }

  lemma {:induction false} CharsCopied(s: string, i: nat, n: nat, t: string, p: nat)
    requires i + n <= |s| && p + n <= |t|
    requires forall y :: p <= y < p + n ==> t[y] == s[y - p + i]
    ensures CopiedAt(s, i, n, t, p)
    decreases n
  {
    if n > 0 {
      CharsCopied(s, i + 1, n - 1, t, p + 1);
    }
  }

  /** A window of a copy is a copy of the window. */
  lemma CopiedSub(s: string, i: nat, n: nat, t: string, p: nat, a: nat, m: nat)
    requires CopiedAt(s, i, n, t, p) && i <= a && a + m <= i + n
    ensures CopiedAt(s, a, m, t, a - i + p)
  {
    CopiedChars(s, i, n, t, p);
    CharsCopied(s, a, m, t, a - i + p);
  }

  /** A match is made of its own characters alone: the same characters at
      any place of any text match there too, with the same argument. */
  lemma MatchMoves(s: string, i: nat, f: Family, t: string, p: nat)
    requires i <= |s| && MatchAt(s, i, f).Some?
    requires CopiedAt(s, i, MatchAt(s, i, f).value.end - i, t, p)
    ensures MatchAt(t, p, f)
         == Some(Token(p, p + (MatchAt(s, i, f).value.end - i), MatchAt(s, i, f).value.arg))
  {
    var u := MatchAt(s, i, f).value;
    var j, k, from, l := MatchShape(s, i, f);
    PartsMove(s, i, f, j, k, from, l, t, p, j - i + p, k - i + p, from - i + p, l - i + p);
  }

  /** `MatchMoves` from the parts of the match, with the positions of the
      parts in the copy given as `j2`, `k2`, `from2` and `l2`. */
  lemma PartsMove(s: string, i: nat, f: Family, j: nat, k: nat, from: nat, l: nat,
                  t: string, p: nat, j2: nat, k2: nat, from2: nat, l2: nat)
    requires Doubled(s, i, '{') && i + 2 <= j && j == SkipSpaces(s, i + 2) && OccursAt(s, f, j)
    requires k == j + |f| && k <= from <= l && l + 2 <= |s|
    requires from == (if ArgAt(s, k).Some? then ArgAt(s, k).value.end else k)
    requires l == SkipSpaces(s, from) && Doubled(s, l, '}')
    requires CopiedAt(s, i, l + 2 - i, t, p)
    requires j2 + i == j + p && k2 + i == k + p && from2 + i == from + p && l2 + i == l + p
    ensures MatchAt(t, p, f)
         == Some(Token(p, l2 + 2, if ArgAt(s, k).Some? then Some(ArgAt(s, k).value.value) else None))
  {
    CopiedSub(s, i, l + 2 - i, t, p, i, k - i);
    HeadMoves(s, i, j, f, t, p, j2);
    CopiedSub(s, i, l + 2 - i, t, p, k, l + 2 - k);
    TailMoves(s, k, from, l, t, k2, from2, l2);
    MatchFromParts(t, p, f, j2, k2, from2, l2,
                   if ArgAt(s, k).Some? then Some(ArgAt(s, k).value.value) else None);
  }

  /** The opening braces, the spaces and the name, read in a copy. */
  lemma HeadMoves(s: string, i: nat, j: nat, f: Family, t: string, p: nat, j2: nat)
    requires i + 2 <= j && Doubled(s, i, '{') && j == SkipSpaces(s, i + 2) && OccursAt(s, f, j)
    requires CopiedAt(s, i, j + |f| - i, t, p) && j2 + i == j + p
    ensures Doubled(t, p, '{') && SkipSpaces(t, p + 2) == j2 && OccursAt(t, f, j2)
  {
    var n := j + |f| - i;
    CopiedChars(s, i, n, t, p);
    assert t[p] == s[i] && t[p + 1] == s[i + 1];
    SkipSpacesSkips(s, i + 2);
    assert s[j] == f[0] by {
      assert s[j..j + |f|][0] == s[j];
    }
    CopiedSub(s, i, n, t, p, i + 2, j - (i + 2) + 1);
    SpacesMove(s, i + 2, j, t, p + 2);
    assert t[j2..j2 + |f|] == s[j..j + |f|];
  }

  /** The optional argument, the spaces and the closing braces, read in a
      copy whose argument starts at `k2`. */
  lemma TailMoves(s: string, k: nat, from: nat, l: nat, t: string, k2: nat, from2: nat, l2: nat)
    requires k <= from <= l && l + 2 <= |s|
    requires from == (if ArgAt(s, k).Some? then ArgAt(s, k).value.end else k)
    requires l == SkipSpaces(s, from) && Doubled(s, l, '}')
    requires CopiedAt(s, k, l + 2 - k, t, k2) && from2 + k == from + k2 && l2 + k == l + k2
    ensures from2 == (if ArgAt(t, k2).Some? then ArgAt(t, k2).value.end else k2)
    ensures (if ArgAt(t, k2).Some? then Some(ArgAt(t, k2).value.value) else None)
         == (if ArgAt(s, k).Some? then Some(ArgAt(s, k).value.value) else None)
    ensures from2 <= |t| && SkipSpaces(t, from2) == l2 && Doubled(t, l2, '}')
  {
    var n := l + 2 - k;
    if ArgAt(s, k).None? && s[k] == '(' {
      assert false;
    }
    ArgMoves(s, k, l + 2, k, t, k2);
    assert SkipSpaces(t, from2) == l2 by {
      SkipSpacesSkips(s, from);
      CopiedSub(s, k, n, t, k2, from, l - from + 1);
      SpacesMove(s, from, l, t, from2);
    }
    CopiedChars(s, k, n, t, k2);
    assert t[l2] == s[l] && t[l2 + 1] == s[l + 1];
  }

  /** `\s*` over a copied run of white space stops at the copied end. */
  lemma SpacesMove(s: string, a: nat, b: nat, t: string, c: nat)
    requires a <= b && CopiedAt(s, a, b - a + 1, t, c)
    requires forall x :: a <= x < b ==> IsSpace(s[x])
    requires !IsSpace(s[b])
    ensures SkipSpaces(t, c) == c + (b - a)
  {
    CopiedChars(s, a, b - a + 1, t, c);
    forall y | c <= y < c + (b - a) ensures IsSpace(t[y]) {
      assert t[y] == s[y - c + a];
    }
    assert t[c + (b - a)] == s[b];
    SkipSpacesUnique(t, c, c + (b - a));
  }

  /** The pattern read from its parts: braces, spaces, the name, the
      optional argument, spaces and braces. */
  lemma MatchFromParts(s: string, i: nat, f: Family, j: nat, k: nat, from: nat, l: nat, arg: Option<nat>)
    requires i <= |s| && Doubled(s, i, '{') && j == SkipSpaces(s, i + 2) && OccursAt(s, f, j)
    requires k == j + |f| <= |s|
    requires from == (if ArgAt(s, k).Some? then ArgAt(s, k).value.end else k)
    requires arg == (if ArgAt(s, k).Some? then Some(ArgAt(s, k).value.value) else None)
    requires from <= |s| && l == SkipSpaces(s, from) && Doubled(s, l, '}')
    ensures MatchAt(s, i, f) == Some(Token(i, l + 2, arg))
  {
  }

  /** The argument group after the name, read at the same place of a copy. */
  lemma ArgMoves(s: string, i: nat, e: nat, k: nat, t: string, p: nat)
    requires i <= k < e <= |s| && CopiedAt(s, i, e - i, t, p)
    requires ArgAt(s, k).Some? ==> ArgAt(s, k).value.end <= e
    requires ArgAt(s, k).None? ==> s[k] != '('
    ensures ArgAt(t, k - i + p)
         == if ArgAt(s, k).Some? then Some(Arg(ArgAt(s, k).value.value, ArgAt(s, k).value.end - i + p)) else None
  {
    CopiedChars(s, i, e - i, t, p);
    var q := k - i + p;
    if ArgAt(s, k).Some? {
      var n := DigitRun(s, k + 1);
      assert t[q + 1 + n] == s[k + 1 + n];
      DigitRunUnique(t, q + 1, n);
      assert t[q + 1..q + 1 + n] == s[k + 1..k + 1 + n];
    }
  }

  /** Inside a match, `{` occurs only in its opening braces. */
  lemma NoBraceInside(s: string, i: nat, f: Family)
    requires i <= |s| && MatchAt(s, i, f).Some?
    ensures forall x :: i + 2 <= x < MatchAt(s, i, f).value.end ==> s[x] != '{'
  {
    var j, k, from, l := MatchShape(s, i, f);
    SkipSpacesSkips(s, i + 2);
    SkipSpacesSkips(s, from);
    forall x | j <= x < k ensures s[x] != '{' {
      assert s[x] == s[j..j + |f|][x - j];
    }
    assert !IsSpace('{');
  }

  /** Two matches, of one family or of two, never overlap: the later one
      starts at or after the end of the earlier one. */
  lemma NoOverlap(s: string, i: nat, f: Family, p: nat, g: Family)
    requires i < p <= |s| && MatchAt(s, i, f).Some? && MatchAt(s, p, g).Some?
    ensures MatchAt(s, i, f).value.end <= p
  {
    var e := MatchAt(s, i, f).value.end;
    if p < e {
      var j, k, from, l := MatchShape(s, i, f);
      NoBraceInside(s, i, f);
      assert false;
    }
  }

  /** A match outside the stretch `[a, b)` that a splice replaces with `x`
      survives the splice: one wholly before it stays where it is, and one
      wholly after it moves by the change in length, with its argument. */
  lemma SpliceBefore(s: string, a: nat, b: nat, x: string, k: nat, f: Family)
    requires a <= b <= |s| && k <= |s| && MatchAt(s, k, f).Some?
    requires MatchAt(s, k, f).value.end <= a
    ensures k <= |s[..a] + x + s[b..]| && MatchAt(s[..a] + x + s[b..], k, f) == MatchAt(s, k, f)
  {
    var e := MatchAt(s, k, f).value.end;
    var r := s[..a] + x + s[b..];
    forall y | k <= y < e ensures r[y] == s[y - k + k] {
      assert r[y] == s[..a][y];
    }
    CharsCopied(s, k, e - k, r, k);
    MatchMoves(s, k, f, r, k);
  }

  lemma SpliceAfter(s: string, a: nat, b: nat, x: string, k: nat, f: Family, k2: nat)
    requires a <= b <= k <= |s| && MatchAt(s, k, f).Some?
    requires k2 + b == k + a + |x|
    ensures k2 <= |s[..a] + x + s[b..]|
    ensures MatchAt(s[..a] + x + s[b..], k2, f)
         == Some(Token(k2, k2 + (MatchAt(s, k, f).value.end - k), MatchAt(s, k, f).value.arg))
  {
    var e := MatchAt(s, k, f).value.end;
    var r := s[..a] + x + s[b..];
    forall y | k2 <= y < k2 + (e - k) ensures r[y] == s[y - k2 + k] {
      assert r[y] == s[b..][y - a - |x|];
    }
    CharsCopied(s, k, e - k, r, k2);
    MatchMoves(s, k, f, r, k2);
  }

  /** Where index `k`, at or after the end of `t`, lands once `t` is
      replaced by `n` characters. */
  function Shifted(k: nat, t: Token, n: nat): (k2: nat)
    requires t.start <= t.end <= k
    ensures k2 + t.end == k + t.start + n
  {
    k - (t.end - t.start) + n
  }

  /** A placeholder of family `f` at `k` and a match `t` of another family
      at a different place do not overlap. */
  lemma Apart(s: string, t: Token, g: Family, k: nat, f: Family)
    requires t.start <= |s| && MatchAt(s, t.start, g) == Some(t)
    requires k <= |s| && MatchAt(s, k, f).Some? && MatchAt(s, t.start, f).None?
    ensures MatchAt(s, k, f).value.end <= t.start || t.end <= k
  {
    if k < t.start {
      NoOverlap(s, k, f, t.start, g);
    } else {
      NoOverlap(s, t.start, g, k, f);
    }
  }

  /** A match before the stretch `t` that the splice `r` replaces with `x`
      stays where it is. */
  lemma ExpansionBefore(s: string, t: Token, x: string, r: string, k: nat, f: Family)
    requires t.start <= t.end <= |s| && r == s[..t.start] + x + s[t.end..]
    requires k <= |s| && MatchAt(s, k, f).Some? && MatchAt(s, k, f).value.end <= t.start
    ensures k <= |r| && MatchAt(r, k, f) == MatchAt(s, k, f)
  {
    SpliceBefore(s, t.start, t.end, x, k, f);
  }

  /** A match after the stretch `t` that the splice `r` replaces with `x`
      moves by the change in length and keeps its argument. */
  lemma ExpansionAfter(s: string, t: Token, x: string, r: string, k: nat, f: Family, u: Token, k2: nat)
    requires t.start <= t.end <= k <= |s| && r == s[..t.start] + x + s[t.end..]
    requires MatchAt(s, k, f) == Some(u) && k2 == Shifted(k, t, |x|)
    ensures k2 <= |r|
    ensures MatchAt(r, k2, f) == Some(Token(k2, k2 + (u.end - k), u.arg))
  {
    SpliceAfter(s, t.start, t.end, x, k, f, k2);
  }

  /** After the splice `r` that replaces a match `t` of another family with
      `x`, a text with a match of family `f` still has a leftmost one. */
  lemma ExpansionFinds(s: string, t: Token, g: Family, x: string, r: string, k: nat, f: Family)
    requires t.start <= |s| && MatchAt(s, t.start, g) == Some(t)
    requires k <= |s| && MatchAt(s, k, f).Some? && MatchAt(s, t.start, f).None?
    requires r == s[..t.start] + x + s[t.end..]
    ensures FirstMatch(r, f).Some?
  {
    Apart(s, t, g, k, f);
    if MatchAt(s, k, f).value.end <= t.start {
      ExpansionBefore(s, t, x, r, k, f);
      SomeMatchFound(r, k, f);
    } else {
      ExpansionAfter(s, t, x, r, k, f, MatchAt(s, k, f).value, Shifted(k, t, |x|));
      SomeMatchFound(r, Shifted(k, t, |x|), f);
    }
  }

  /** The name holds no `(`. */
  lemma NameNoParen(s: string, j: nat, f: Family)
    requires OccursAt(s, f, j)
    ensures forall x :: j <= x < j + |f| ==> s[x] != '('
  {
    var n := f;
    forall x | j <= x < j + |n| ensures s[x] != '(' {
      assert s[x] == s[j..j + |n|][x - j];
    }
  }

  /** White space is no `(`. */
  lemma SpacesNoParen(s: string, lo: nat, hi: nat)
    requires lo <= hi <= |s|
    requires forall x :: lo <= x < hi ==> IsSpace(s[x])
    ensures forall x :: lo <= x < hi ==> s[x] != '('
  {
    assert !IsSpace('(');
  }

  /** Inside a window that has no `(` before index `k` and none from
      `from` on, where `from` is just past the argument group at `k` (or `k`
      itself when there is none), the argument pattern finds that group. */
  lemma FirstArgWindow(s: string, lo: nat, k: nat, from: nat, hi: nat)
    requires lo <= k <= from <= hi <= |s|
    requires forall x :: lo <= x < k ==> s[x] != '('
    requires forall x :: from <= x < hi ==> s[x] != '('
    requires from == (if ArgAt(s, k).Some? then ArgAt(s, k).value.end else k)
    ensures FirstArg(s[lo..hi]) == (if ArgAt(s, k).Some? then Some(ArgAt(s, k).value.value) else None)
  {
    var m := s[lo..hi];
    assert forall x :: 0 <= x < |m| ==> m[x] == s[lo + x];
    FirstArgSkip(m, 0, k - lo);
    if ArgAt(s, k).Some? {
      ArgAtWindow(s, lo, hi, k);
    } else {
      FirstArgSkip(m, k - lo, |m|);
    }
  }

  /** The argument pattern, searched for inside the text of a placeholder
      match, finds exactly the placeholder's own argument. */
  lemma FirstArgOfToken(s: string, i: nat, f: Family)
    requires i <= |s| && MatchAt(s, i, f).Some?
    ensures var t := MatchAt(s, i, f).value;
            FirstArg(s[t.start..t.end]) == t.arg
  {
    var j, k, from, l := MatchShape(s, i, f);
    SkipSpacesSkips(s, i + 2);
    SkipSpacesSkips(s, from);
    SpacesNoParen(s, i + 2, j);
    NameNoParen(s, j, f);
    SpacesNoParen(s, from, l);
    assert forall x :: i <= x < k ==> s[x] != '(';
    assert forall x :: from <= x < l + 2 ==> s[x] != '(';
    FirstArgWindow(s, i, k, from, l + 2);
  }
}
