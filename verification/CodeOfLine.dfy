/** What the comment guard takes for the code of a line, in bytes: which bytes are white space, where a
    trailing comment begins, and which lines are comments (tools/commentguard.go). */
module CodeOfLine {
  import opened Utf8
  import opened CommentGuard
  import WhiteSpace
  import opened Wrappers

  // ----- White space in bytes -----

  /** The UTF-8 encodings of the white-space characters. */
  predicate IsBlank(s: Text) {
    || (|s| == 1 && (9 <= s[0] <= 13 || s[0] == 32))
    || (|s| == 2 && s[0] == 0xC2 && (s[1] == 0x85 || s[1] == 0xA0))
    || s == [0xE1, 0x9A, 0x80]
    || (|s| == 3 && s[..2] == [0xE2, 0x80] && (0x80 <= s[2] <= 0x8A || s[2] in [0xA8, 0xA9, 0xAF]))
    || s == [0xE2, 0x81, 0x9F]
    || s == [0xE3, 0x80, 0x80]
  }

  predicate StartsBlank(s: Text) {
    exists n :: 1 <= n <= 3 && n <= |s| && IsBlank(s[..n])
  }

  predicate BlankSuffix(s: Text, n: nat) {
    1 <= n <= 3 && n <= |s| && IsBlank(s[|s| - n..])
  }

  predicate EndsBlank(s: Text) {
    BlankSuffix(s, 1) || BlankSuffix(s, 2) || BlankSuffix(s, 3)
  }

  /** Nothing but white space. */
  ghost predicate Blanks(s: Text) {
    s == [] || exists n :: 1 <= n <= 3 && n <= |s| && IsBlank(s[..n]) && Blanks(s[n..])
  }

  lemma BlankIsSpace(s: Text)
    requires IsBlank(s)
    ensures StartsRune(s) && Width(s) == |s| && WhiteSpace.IsSpace(RuneAt(s))
  {
  }

  lemma SpaceIsBlank(s: Text)
    requires s != [] && StartsRune(s) && WhiteSpace.IsSpace(RuneAt(s)) && Width(s) == |s|
    ensures IsBlank(s)
  {
    SpacesAreShort(s);
    if |s| == 3 {
      ThreeByteSpace(s);
    } else if |s| == 2 {
      TwoByteSpace(s);
    }
  }

  lemma TwoByteSpace(s: Text)
    requires StartsRune(s) && |s| == 2 && Width(s) == 2 && WhiteSpace.IsSpace(RuneAt(s))
    ensures IsBlank(s)
  {
    assert RuneAt(s) == (s[0] as int - 0xC0) * 0x40 + (s[1] as int - 0x80);
  }

  lemma ThreeByteSpace(s: Text)
    requires StartsRune(s) && |s| == 3 && Width(s) == 3 && WhiteSpace.IsSpace(RuneAt(s))
    ensures IsBlank(s)
  {
    assert RuneAt(s) == (s[0] as int - 0xE0) * 0x1000 + (s[1] as int - 0x80) * 0x40 + (s[2] as int - 0x80);
    assert s == [s[0], s[1], s[2]];
  }

  /** A text begins with white space exactly if its first character is white space. */
  lemma StartsBlankIff(s: Text)
    requires s != []
    ensures WhiteSpace.IsSpace(RuneAt(s)) <==> StartsBlank(s)
    ensures StartsBlank(s) ==> IsBlank(s[..Width(s)])
    ensures forall n :: 1 <= n <= 3 && n <= |s| && IsBlank(s[..n]) ==> n == Width(s)
  {
    hide IsBlank, WhiteSpace.IsSpace;
    forall n | 1 <= n <= 3 && n <= |s| && IsBlank(s[..n]) ensures n == Width(s) && WhiteSpace.IsSpace(RuneAt(s)) {
      BlankIsSpace(s[..n]);
      FirstRuneStays(s[..n], s[n..]);
      assert s[..n] + s[n..] == s;
    }
    if WhiteSpace.IsSpace(RuneAt(s)) {
      SpacesAreShort(s);
      var w := Width(s);
      FirstRuneAlone(s);
      SpaceIsBlank(s[..w]);
    }
  }

  lemma SpacesAreShort(s: Text)
    requires s != [] && WhiteSpace.IsSpace(RuneAt(s))
    ensures StartsRune(s) && Width(s) <= 3
  {
  }

  lemma FirstRuneAlone(s: Text)
    requires StartsRune(s)
    ensures var w := Width(s); StartsRune(s[..w]) && Width(s[..w]) == w && RuneAt(s[..w]) == RuneAt(s)
  {
  }

  lemma EndsWithSpaceIff(s: Text, n: nat)
    ensures EndsWithSpace(s, n) <==> BlankSuffix(s, n)
  {
    hide IsBlank, WhiteSpace.IsSpace, StartsRune, RuneAt, Width;
    if 0 < n <= |s| {
      var t := s[|s| - n..];
      if EndsWithSpace(s, n) {
        SpacesAreShort(t);
        SpaceIsBlank(t);
      } else if IsBlank(t) {
        BlankIsSpace(t);
      }
    }
  }

  /** Bytes that begin white space do not continue a sequence, and the others do. */
  lemma BlankBegins(s: Text)
    requires IsBlank(s)
    ensures s != [] && |s| <= 3 && !IsCont(s[0]) && forall i :: 1 <= i < |s| ==> IsCont(s[i])
  {
  }

  /** No encoding of white space ends in a shorter one. */
  lemma BlankEndsOnce(s: Text, m: nat, n: nat)
    requires BlankSuffix(s, m) && BlankSuffix(s, n)
    ensures m == n
  {
    hide IsBlank;
    assert m < n ==> s[|s| - m..][0] == s[|s| - n..][n - m];
    assert n < m ==> s[|s| - n..][0] == s[|s| - m..][m - n];
    BlankBegins(s[|s| - m..]);
    BlankBegins(s[|s| - n..]);
  }

  // ----- Trimming -----

  /** Trimming the right takes off one encoding of white space after the other. */
  lemma TrimRightOne(s: Text, n: nat)
    requires BlankSuffix(s, n)
    ensures TrimRunesRight(s) == TrimRunesRight(s[..|s| - n])
  {
    hide IsBlank, EndsWithSpace;
    EndsWithSpaceIff(s, 1);
    EndsWithSpaceIff(s, 2);
    EndsWithSpaceIff(s, 3);
    forall m: nat | BlankSuffix(s, m) ensures m == n {
      BlankEndsOnce(s, m, n);
    }
  }

  lemma TrimRightDone(s: Text)
    requires !EndsBlank(s)
    ensures TrimRunesRight(s) == s
  {
    hide IsBlank, EndsWithSpace;
    EndsWithSpaceIff(s, 1);
    EndsWithSpaceIff(s, 2);
    EndsWithSpaceIff(s, 3);
  }

  lemma SuffixOfConcat(a: Text, b: Text, n: nat)
    requires n <= |b|
    ensures (a + b)[|a + b| - n..] == b[|b| - n..] && (a + b)[..|a + b| - n] == a + b[..|b| - n]
  {
  }

  lemma FirstBlank(s: Text) returns (n: nat)
    requires Blanks(s) && s != []
    ensures 1 <= n <= 3 && n <= |s| && IsBlank(s[..n]) && Blanks(s[n..]) && s == s[..n] + s[n..]
  {
    hide IsBlank;
    n :| 1 <= n <= 3 && n <= |s| && IsBlank(s[..n]) && Blanks(s[n..]);
  }

  lemma OneMoreBlank(a: Text, b: Text)
    requires IsBlank(a) && 1 <= |a| <= 3 && Blanks(b)
    ensures Blanks(a + b)
  {
    hide IsBlank;
    assert (a + b)[..|a|] == a && (a + b)[|a|..] == b;
  }

  lemma NoBlanks()
    ensures Blanks([])
  {
  }

  /** White space seen from its end. */
  lemma {:induction false} LastBlank(s: Text) returns (n: nat)
    requires Blanks(s) && s != []
    ensures n <= |s| && BlankSuffix(s, n) && Blanks(s[..|s| - n])
  {
    hide IsBlank, Blanks, BlankSuffix;
    var m := FirstBlank(s);
    if s[m..] == [] {
      n := m;
      OnlyBlank(s, m);
    } else {
      n := LastBlank(s[m..]);
      LastOfTwo(s, s[..m], s[m..], n);
    }
  }

  lemma OnlyBlank(s: Text, n: nat)
    requires 1 <= n <= 3 && n == |s| && IsBlank(s[..n])
    ensures BlankSuffix(s, n) && Blanks(s[..|s| - n])
  {
    hide IsBlank, Blanks;
    NoBlanks();
    assert s[..n] == s == s[|s| - n..] && s[..|s| - n] == [];
  }

  lemma LastOfTwo(s: Text, first: Text, rest: Text, n: nat)
    requires s == first + rest && IsBlank(first) && 1 <= |first| <= 3
    requires BlankSuffix(rest, n) && Blanks(rest[..|rest| - n])
    ensures BlankSuffix(s, n) && Blanks(s[..|s| - n])
  {
    hide IsBlank, Blanks;
    SuffixOfConcat(first, rest, n);
    OneMoreBlank(first, rest[..|rest| - n]);
  }

  lemma {:induction false} TrimRightBlanks(code: Text, post: Text)
    requires Blanks(post)
    ensures TrimRunesRight(code + post) == TrimRunesRight(code)
    decreases |post|
  {
    hide IsBlank, TrimRunesRight, Blanks;
    if post == [] {
      assert code + post == code;
    } else {
      var n := LastBlank(post);
      SuffixOfConcat(code, post, n);
      TrimRightOne(code + post, n);
      TrimRightBlanks(code, post[..|post| - n]);
    }
  }

  lemma {:induction false} TrimLeftBlanks(pre: Text, s: Text)
    requires Blanks(pre)
    ensures TrimRunesLeft(pre + s) == TrimRunesLeft(s)
    decreases |pre|
  {
    hide IsBlank, WhiteSpace.IsSpace, RuneAt, StartsRune;
    if pre == [] {
      assert pre + s == s;
    } else {
      var n := FirstBlank(pre);
      assert (pre + s)[..n] == pre[..n] && (pre + s)[n..] == pre[n..] + s;
      StartsBlankIff(pre + s);
      assert StartsBlank(pre + s) && Width(pre + s) == n;
      TrimLeftBlanks(pre[n..], s);
    }
  }

  lemma TrimLeftDone(s: Text)
    requires !StartsBlank(s)
    ensures TrimRunesLeft(s) == s
  {
    hide IsBlank, WhiteSpace.IsSpace;
    if s != [] {
      StartsBlankIff(s);
    }
  }

  lemma StartStays(code: Text, post: Text)
    requires code != [] && !StartsBlank(code) && Blanks(post)
    ensures !StartsBlank(code + post)
  {
    hide IsBlank, Blanks;
    var s := code + post;
    forall n | 1 <= n <= 3 && n <= |s| ensures !IsBlank(s[..n]) {
      if n <= |code| {
        assert s[..n] == code[..n];
      } else {
        FirstByte(post);
        CrossingIsNoBlank(code, post, n);
      }
    }
  }

  lemma CrossingIsNoBlank(code: Text, post: Text, n: nat)
    requires code != [] && |code| < n <= |code + post| && !IsCont(post[0])
    ensures !IsBlank((code + post)[..n])
  {
    hide IsBlank;
    assert (code + post)[..n][|code|] == post[0];
    if IsBlank((code + post)[..n]) {
      BlankBegins((code + post)[..n]);
    }
  }

  lemma FirstByte(post: Text)
    requires Blanks(post) && post != []
    ensures !IsCont(post[0])
  {
    hide IsBlank;
    var n := FirstBlank(post);
    BlankBegins(post[..n]);
  }

  lemma TrimLeftAtEnd(code: Text, post: Text)
    requires code == [] ==> post == []
    requires !StartsBlank(code) && Blanks(post)
    ensures TrimRunesLeft(code + post) == code + post
  {
    if code == [] {
      assert code + post == [];
    } else {
      StartStays(code, post);
      TrimLeftDone(code + post);
    }
  }

  // ----- Comments -----

  /** Two slashes in a row, at i. */
  predicate SlashesAt(s: Text, i: nat) {
    i + 1 < |s| && s[i] == 47 && s[i + 1] == 47
  }

  ghost predicate NoSlashPair(s: Text) {
    forall i: nat :: !SlashesAt(s, i)
  }

  /** The text starts with one of the comment markers. */
  predicate StartsComment(s: Text) {
    || [47, 47] <= s || [35] <= s || [45, 45] <= s || [47, 42] <= s || [42, 47] <= s || [42] <= s
  }

  lemma SlashesOccur(s: Text, i: nat)
    ensures OccursAt(s, SLASHES, i) <==> SlashesAt(s, i)
  {
    if i + 2 <= |s| {
      assert s[i..i + 2] == [s[i], s[i + 1]];
    }
  }

  lemma NothingStripped(s: Text)
    requires NoSlashPair(s)
    ensures StripTrailingComment(s) == s
  {
    hide TrimBlanks;
    var i := IndexOf(s, SLASHES);
    if i.Some? {
      SlashesOccur(s, i.value);
    }
  }

  lemma StrippedAt(s: Text, i: nat)
    requires SlashesAt(s, i) && forall j :: 0 <= j < i ==> !SlashesAt(s, j)
    ensures StripTrailingComment(s) == TrimBlanks(s[..i])
  {
    hide TrimBlanks;
    SlashesOccur(s, i);
    IndexIsFirst(s, SLASHES, i);
    SlashesOccur(s, IndexOf(s, SLASHES).value);
  }

  lemma CommentStarts(s: Text)
    ensures IsCommentMarker(s) <==> StartsComment(s)
  {
    assert MARKERS[0] == [47, 47] && MARKERS[1] == [35] && MARKERS[2] == [45, 45];
    assert MARKERS[3] == [47, 42] && MARKERS[4] == [42, 47] && MARKERS[5] == [42];
  }

  lemma BlankHasNoSlash(s: Text)
    requires IsBlank(s)
    ensures forall i :: 0 <= i < |s| ==> s[i] != 47
  {
  }

  lemma {:induction false} BlanksHaveNoSlash(s: Text, i: nat)
    requires Blanks(s) && i < |s|
    ensures s[i] != 47
    decreases |s|
  {
    hide IsBlank, Blanks;
    var n := FirstBlank(s);
    BlankHasNoSlash(s[..n]);
    if i < n {
      assert s[..n][i] == s[i];
    } else {
      BlanksHaveNoSlash(s[n..], i - n);
    }
  }

  /** A line of white space, code, and white space counts as the code: it begins and ends with none, holds no two
      slashes in a row, and does not begin with a comment marker. */
  lemma CodeCounts(pre: Text, code: Text, post: Text)
    requires Blanks(pre) && Blanks(post) && code != []
    requires !StartsBlank(code) && !EndsBlank(code) && NoSlashPair(code) && !StartsComment(code)
    ensures CodeOf(pre + code + post) == Some(code)
  {
    hide IsBlank, Blanks, StripTrailingComment, TrimRunesLeft, TrimRunesRight, IsCommentMarker;
    var line := pre + code + post;
    forall i: nat ensures !SlashesAt(line, i) {
      NoPairAcross(pre, code, post, i);
    }
    NothingStripped(line);
    assert line == pre + (code + post);
    TrimLeftBlanks(pre, code + post);
    TrimLeftAtEnd(code, post);
    TrimRightBlanks(code, post);
    TrimRightDone(code);
    CommentStarts(code);
  }

  lemma NoPairAcross(pre: Text, code: Text, post: Text, i: nat)
    requires Blanks(pre) && Blanks(post) && NoSlashPair(code)
    ensures !SlashesAt(pre + code + post, i)
  {
    hide Blanks;
    var line := pre + code + post;
    if i + 1 < |line| {
      if i < |pre| {
        BlanksHaveNoSlash(pre, i);
      } else if i + 1 >= |pre| + |code| {
        BlanksHaveNoSlash(post, i + 1 - |pre| - |code|);
      } else {
        assert !SlashesAt(code, i - |pre|);
      }
    }
  }

  /** A line counts as what stands before its first two slashes in a row. */
  lemma CommentIsCutOff(line: Text, i: nat)
    requires SlashesAt(line, i) && forall j :: 0 <= j < i ==> !SlashesAt(line, j)
    ensures CodeOf(line) == CodeOf(line[..i])
  {
    hide StripTrailingComment, TrimRunesLeft, TrimRunesRight, IsCommentMarker, TrimBlanks;
    StrippedAt(line, i);
    forall j: nat ensures !SlashesAt(line[..i], j) {
      assert j < i ==> !SlashesAt(line, j);
    }
    NothingStripped(line[..i]);
    BlanksMatterNot(line[..i]);
  }

  /** Cutting blanks and tabs off first makes no difference to trimming. */
  lemma {:induction false} BlanksMatterNot(s: Text)
    ensures TrimRunesRight(TrimRunesLeft(TrimBlanks(s))) == TrimRunesRight(TrimRunesLeft(s))
  {
    hide TrimRunesLeft, TrimRunesRight;
    if s != [] && s[|s| - 1] in {BLANK, TAB} {
      var front, b := s[..|s| - 1], s[|s| - 1];
      BlanksMatterNot(front);
      OneBlankMatterNot(front, b);
      assert s == front + [b];
    }
  }

  lemma OneBlankMatterNot(s: Text, b: Byte)
    requires IsBlank([b])
    ensures TrimRunesRight(TrimRunesLeft(s + [b])) == TrimRunesRight(TrimRunesLeft(s))
  {
    hide IsBlank, TrimRunesRight;
    assert [b][..1] == [b] && [b][1..] == [];
    assert Blanks([b]);
    var pre := LeadingBlanks(s);
    var rest := s[|pre|..];
    assert s == pre + rest && s + [b] == pre + (rest + [b]);
    TrimLeftBlanks(pre, rest);
    TrimLeftBlanks(pre, rest + [b]);
    TrimLeftDone(rest);
    if rest == [] {
      assert rest + [b] == [b] && [b] + [] == [b];
      TrimLeftBlanks([b], []);
    } else {
      TrimLeftAtEnd(rest, [b]);
      TrimRightBlanks(rest, [b]);
    }
  }

  lemma {:induction false} LeadingBlanks(s: Text) returns (pre: Text)
    ensures pre <= s && Blanks(pre) && !StartsBlank(s[|pre|..])
    decreases |s|
  {
    hide IsBlank;
    if StartsBlank(s) {
      var n :| 1 <= n <= 3 && n <= |s| && IsBlank(s[..n]);
      var rest := LeadingBlanks(s[n..]);
      pre := s[..n] + rest;
      assert pre[..n] == s[..n] && pre[n..] == rest;
      assert s[|pre|..] == s[n..][|rest|..];
    } else {
      pre := [];
      assert s[0..] == s;
    }
  }

  // ----- Comment lines -----

  /** An ASCII byte that is no white space ends what trimming the right can reach. */
  lemma {:induction false} TrimRightKeeps(p: Text, s: Text)
    requires p != [] && p[|p| - 1] < 0x80 && !IsBlank([p[|p| - 1]])
    ensures p <= TrimRunesRight(p + s)
    decreases |s|
  {
    var t := p + s;
    if n: nat :| BlankSuffix(t, n) {
      SuffixIsBehind(p, s, n);
      TrimRightOne(t, n);
      assert t[..|t| - n] == p + s[..|s| - n];
      TrimRightKeeps(p, s[..|s| - n]);
    } else {
      TrimRightDone(t);
    }
  }

  lemma SuffixIsBehind(p: Text, s: Text, n: nat)
    requires p != [] && p[|p| - 1] < 0x80 && !IsBlank([p[|p| - 1]]) && BlankSuffix(p + s, n)
    ensures n <= |s|
  {
    hide IsBlank;
    var t := (p + s)[|p + s| - n..];
    assert n > |s| ==> t[n - |s| - 1] == p[|p| - 1];
    assert |t| == 1 ==> t == [t[0]];
    BlankBytes(t);
  }

  lemma BlankBytes(s: Text)
    requires IsBlank(s)
    ensures |s| == 1 || forall i :: 0 <= i < |s| ==> s[i] >= 0x80
  {
  }

  /** A line whose text begins with a comment marker counts for nothing. */
  lemma CommentLinesDoNotCount(pre: Text, rest: Text)
    requires Blanks(pre) && StartsComment(rest)
    ensures CodeOf(pre + rest) == None
  {
    hide Blanks, IsBlank, StripTrailingComment, TrimRunesLeft, TrimRunesRight, IsCommentMarker;
    var line := pre + rest;
    if NoSlashPair(line) {
      NothingStripped(line);
      MarkerStays(pre, rest);
    } else {
      var i := FirstSlashes(line);
      CommentIsCutOff(line, i);
      NothingBefore(line, i);
      if i <= |pre| {
        PairStartsBehind(pre, rest, i);
        assert line[..i] == pre + [];
        OnlyBlanks(pre);
      } else {
        var cut := rest[..i - |pre|];
        assert line[..i] == pre + cut;
        forall j: nat | j < i - |pre| ensures !SlashesAt(rest, j) {
          assert !SlashesAt(line, |pre| + j);
        }
        CutIsComment(rest, i - |pre|);
        MarkerStays(pre, cut);
      }
    }
  }

  lemma FirstSlashes(s: Text) returns (i: nat)
    requires !NoSlashPair(s)
    ensures SlashesAt(s, i) && forall j :: 0 <= j < i ==> !SlashesAt(s, j)
  {
    var k: nat :| SlashesAt(s, k);
    i := 0;
    while !SlashesAt(s, i)
      invariant i <= k && forall j :: 0 <= j < i ==> !SlashesAt(s, j)
      decreases k - i
    {
      i := i + 1;
    }
  }

  lemma NothingBefore(line: Text, i: nat)
    requires SlashesAt(line, i) && forall j :: 0 <= j < i ==> !SlashesAt(line, j)
    ensures StripTrailingComment(line[..i]) == line[..i]
  {
    forall j: nat ensures !SlashesAt(line[..i], j) {
      assert j < i ==> !SlashesAt(line, j);
    }
    NothingStripped(line[..i]);
  }

  lemma PairStartsBehind(pre: Text, rest: Text, i: nat)
    requires Blanks(pre) && SlashesAt(pre + rest, i)
    ensures i >= |pre|
  {
    if i < |pre| {
      BlanksHaveNoSlash(pre, i);
    }
  }

  lemma OnlyBlanks(pre: Text)
    requires Blanks(pre) && StripTrailingComment(pre + []) == pre + []
    ensures CodeOf(pre + []) == None
  {
    hide Blanks, StripTrailingComment, IsCommentMarker;
    TrimLeftBlanks(pre, []);
  }

  /** Cut off at two slashes behind its start, a comment still begins with a marker. */
  lemma CutIsComment(rest: Text, n: nat)
    requires StartsComment(rest) && 0 < n && SlashesAt(rest, n) && forall j :: 0 <= j < n ==> !SlashesAt(rest, j)
    ensures StartsComment(rest[..n])
  {
    assert !SlashesAt(rest, 0) && rest[..n][0] == rest[0];
    assert n > 1 ==> rest[..n][1] == rest[1];
  }

  lemma MarkerStays(pre: Text, rest: Text)
    requires Blanks(pre) && StartsComment(rest) && StripTrailingComment(pre + rest) == pre + rest
    ensures CodeOf(pre + rest) == None
  {
    hide Blanks, StripTrailingComment, TrimRunesLeft, TrimRunesRight, IsCommentMarker;
    var n := if [35] <= rest || ([42] <= rest && !([42, 47] <= rest)) then 1 else 2;
    TrimLeftBlanks(pre, rest);
    MarkerIsNoBlank(rest);
    TrimLeftDone(rest);
    assert rest == rest[..n] + rest[n..];
    TrimRightKeeps(rest[..n], rest[n..]);
    CommentStarts(TrimRunesRight(rest));
  }

  lemma MarkerIsNoBlank(rest: Text)
    requires StartsComment(rest)
    ensures !StartsBlank(rest)
  {
    forall n | 1 <= n <= 3 && n <= |rest| ensures !IsBlank(rest[..n]) {
      assert rest[..n][0] == rest[0];
    }
  }
}
