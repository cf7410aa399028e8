/** The guard that lets an edit change comments only (tools/commentguard.go), and what a guarded
    replacement does to the code lines of the whole file. */
module CommentGuard {
  import opened Utf8
  import WhiteSpace
  import opened Wrappers

  const TAB: Byte := 9
  const BLANK: Byte := 32
  const SLASHES: Text := [47, 47]
  const MARKERS: seq<Text> := [[47, 47], [35], [45, 45], [47, 42], [42, 47], [42]]

  // ----- One line -----

  function TrimRunesLeft(s: Text): Text {
    if s != [] && WhiteSpace.IsSpace(RuneAt(s)) then TrimRunesLeft(s[Width(s)..]) else s
  }

  /** The text ends with the encoding, n bytes long, of a space. */
  predicate EndsWithSpace(s: Text, n: nat) {
    0 < n <= |s| && StartsRune(s[|s| - n..]) && Width(s[|s| - n..]) == n && WhiteSpace.IsSpace(RuneAt(s[|s| - n..]))
  }

  function TrimRunesRight(s: Text): Text {
    if EndsWithSpace(s, 1) then TrimRunesRight(s[..|s| - 1])
    else if EndsWithSpace(s, 2) then TrimRunesRight(s[..|s| - 2])
    else if EndsWithSpace(s, 3) then TrimRunesRight(s[..|s| - 3])
    else s
  }

  function TrimBlanks(s: Text): Text {
    if s != [] && s[|s| - 1] in {BLANK, TAB} then TrimBlanks(s[..|s| - 1]) else s
  }

  function StripTrailingComment(line: Text): Text {
    var i := IndexOf(line, SLASHES);
    if i.Some? then TrimBlanks(line[..i.value]) else line
  }

  predicate IsCommentMarker(s: Text) {
    exists i :: 0 <= i < |MARKERS| && MARKERS[i] <= s
  }

  /** What a line counts as, if it is a line of code. */
  function CodeOf(line: Text): Option<Text> {
    var code := TrimRunesRight(TrimRunesLeft(StripTrailingComment(line)));
    if code == [] || IsCommentMarker(code) then None else Some(code)
  }

  // ----- All lines -----

  ghost function Counted(line: Text): multiset<Text> {
    var code := CodeOf(line);
    if code.Some? then multiset{code.value} else multiset{}
  }

  /** The lines of code of a text, as often as they occur. */
  ghost function CodeLines(s: Text): multiset<Text> {
    var i := LineEnd(s);
    Counted(s[..i]) + if i < |s| then CodeLines(s[i + 1..]) else multiset{}
  }

  lemma FirstLine(s: Text)
    ensures var i := LineEnd(s);
            CodeLines(s) == Counted(s[..i]) + if i < |s| then CodeLines(s[i + 1..]) else multiset{}
  {
    hide Counted, LineEnd;
  }

  function Get(counts: map<Text, nat>, line: Text): nat {
    if line in counts then counts[line] else 0
  }

  ghost predicate Counts(counts: map<Text, nat>, lines: multiset<Text>) {
    forall line :: lines[line] == if line in counts then counts[line] else 0
  }

  method CountCodeLines(text: Text) returns (counts: map<Text, nat>)
    ensures Counts(counts, CodeLines(text))
  {
    hide CodeOf, CodeLines, LineEnd;
    counts := map[];
    var rest, more := text, true;
    ghost var seen: multiset<Text> := multiset{};
    while more
      invariant Counts(counts, seen)
      invariant seen + (if more then CodeLines(rest) else multiset{}) == CodeLines(text)
      decreases more, |rest|
    {
      var i := LineEnd(rest);
      FirstLine(rest);
      seen := seen + Counted(rest[..i]);
      var code := CodeOf(rest[..i]);
      if code.Some? {
        counts := counts[code.value := Get(counts, code.value) + 1];
      }
      more := i < |rest|;
      if more {
        rest := rest[i + 1..];
      }
    }
  }

  /** The lines that occur more often in `more` than in `less`, by how much. */
  method Excess(more: map<Text, nat>, less: map<Text, nat>, ghost a: multiset<Text>, ghost b: multiset<Text>)
    returns (lines: seq<Text>)
    requires Counts(more, a) && Counts(less, b)
    ensures multiset(lines) == a - b
  {
    lines := [];
    var rest := more.Keys;
    while rest != {}
      invariant rest <= more.Keys
      invariant forall line :: multiset(lines)[line] == if line in more && line !in rest then (a - b)[line] else 0
    {
      var line :| line in rest;
      rest := rest - {line};
      ghost var before := lines;
      var excess := more[line] - Get(less, line);
      for n := 0 to if excess > 0 then excess else 0
        invariant forall l :: multiset(lines)[l] == multiset(before)[l] + if l == line then n else 0
      {
        lines := lines + [line];
      }
      assert Get(more, line) == a[line] && Get(less, line) == b[line];
    }
    forall line ensures multiset(lines)[line] == (a - b)[line] {
      assert Get(more, line) == a[line];
    }
  }

  method CodeLineDiff(oldText: Text, newText: Text) returns (added: seq<Text>, removed: seq<Text>)
    ensures multiset(added) == CodeLines(newText) - CodeLines(oldText)
    ensures multiset(removed) == CodeLines(oldText) - CodeLines(newText)
  {
    var oldCounts := CountCodeLines(oldText);
    var newCounts := CountCodeLines(newText);
    added := Excess(newCounts, oldCounts, CodeLines(newText), CodeLines(oldText));
    removed := Excess(oldCounts, newCounts, CodeLines(oldText), CodeLines(newText));
  }

  method ValidateCommentsOnly(oldText: Text, newText: Text) returns (ok: bool)
    ensures ok <==> CodeLines(oldText) == CodeLines(newText)
  {
    var added, removed := CodeLineDiff(oldText, newText);
    ok := |added| == 0 && |removed| == 0;
    NoDifference(CodeLines(oldText), CodeLines(newText), added, removed);
  }

  lemma NoDifference(a: multiset<Text>, b: multiset<Text>, added: seq<Text>, removed: seq<Text>)
    requires multiset(added) == b - a && multiset(removed) == a - b
    ensures a == b <==> added == [] && removed == []
  {
    if added == [] && removed == [] {
      forall l ensures a[l] == b[l] {
        assert (b - a)[l] == 0 && (a - b)[l] == 0;
      }
    } else {
      assert |multiset(added)| == |added| && |multiset(removed)| == |removed|;
    }
  }

  // ----- Counting is additive over lines -----

  lemma {:induction false} CodeLinesConcat(a: Text, b: Text)
    ensures CodeLines(a + [10] + b) == CodeLines(a) + CodeLines(b)
  {
    hide CodeLines, Counted, LineEnd;
    var s, i := a + [NEWLINE] + b, LineEnd(a);
    FirstLine(a);
    FirstLine(s);
    FirstLineStays(a, b);
    assert s[..i] == a[..i];
    if i < |a| {
      CodeLinesConcat(a[i + 1..], b);
      assert s[i + 1..] == a[i + 1..] + [NEWLINE] + b;
    } else {
      assert s[i + 1..] == b;
    }
  }

  // ----- One occurrence -----

  /** Where the last line begins. */
  function LineStart(s: Text): (i: nat)
    ensures i <= |s| && (i > 0 ==> s[i - 1] == NEWLINE) && forall j :: i <= j < |s| ==> s[j] != NEWLINE
  {
    if s == [] || s[|s| - 1] == NEWLINE then |s| else LineStart(s[..|s| - 1])
  }

  /** The lines that replacing `mid` between `pre` and `post` touches, in full. */
  function Touched(pre: Text, mid: Text, post: Text): Text {
    pre[LineStart(pre)..] + mid + post[..LineEnd(post)]
  }

  lemma SplitBefore(pre: Text, rest: Text)
    ensures CodeLines(pre + rest) == Above(pre) + CodeLines(pre[LineStart(pre)..] + rest)
  {
    hide CodeLines, LineStart;
    var i := LineStart(pre);
    if i > 0 {
      CodeLinesConcat(pre[..i - 1], pre[i..] + rest);
      assert pre + rest == pre[..i - 1] + [NEWLINE] + (pre[i..] + rest);
    } else {
      assert pre[i..] == pre;
    }
  }

  lemma SplitAfter(rest: Text, post: Text)
    ensures CodeLines(rest + post) == CodeLines(rest + post[..LineEnd(post)]) + Below(post)
  {
    hide CodeLines, LineEnd;
    var i := LineEnd(post);
    if i < |post| {
      CodeLinesConcat(rest + post[..i], post[i + 1..]);
      assert rest + post == (rest + post[..i]) + [NEWLINE] + post[i + 1..];
    } else {
      assert post[..i] == post;
    }
  }

  /** The code lines above and below the touched ones. */
  ghost function Above(pre: Text): multiset<Text> {
    if LineStart(pre) > 0 then CodeLines(pre[..LineStart(pre) - 1]) else multiset{}
  }

  ghost function Below(post: Text): multiset<Text> {
    if LineEnd(post) < |post| then CodeLines(post[LineEnd(post) + 1..]) else multiset{}
  }

  lemma TouchedSplit(pre: Text, mid: Text, post: Text)
    ensures CodeLines(pre + mid + post) == Above(pre) + CodeLines(Touched(pre, mid, post)) + Below(post)
  {
    hide CodeLines, LineEnd, LineStart;
    var start, end := pre[LineStart(pre)..], post[..LineEnd(post)];
    SplitAfter(pre + mid, post);
    SplitBefore(pre, mid + end);
    assert (pre + mid) + end == pre + (mid + end) && start + (mid + end) == start + mid + end;
  }

  /** Replacing one occurrence keeps the whole file's code lines exactly if the guard accepts the lines
      it touches, taken in full. The guard itself sees only the replaced fragment. */
  lemma ReplacementLawIff(pre: Text, old_: Text, new_: Text, post: Text)
    ensures CodeLines(pre + old_ + post) == CodeLines(pre + new_ + post) <==>
            CodeLines(Touched(pre, old_, post)) == CodeLines(Touched(pre, new_, post))
  {
    hide CodeLines, Touched, Above, Below;
    TouchedSplit(pre, old_, post);
    TouchedSplit(pre, new_, post);
    Cancel(CodeLines(Touched(pre, old_, post)), CodeLines(Touched(pre, new_, post)), Above(pre), Below(post));
  }

  lemma Cancel(a: multiset<Text>, b: multiset<Text>, above: multiset<Text>, below: multiset<Text>)
    ensures above + a + below == above + b + below <==> a == b
  {
    if above + a + below == above + b + below {
      forall l ensures a[l] == b[l] {
        assert (above + a + below)[l] == (above + b + below)[l];
      }
    }
  }

  /** The replaced text starts at the start of a line and ends at the end of one. */
  predicate Aligned(pre: Text, post: Text) {
    (pre == [] || pre[|pre| - 1] == NEWLINE) && (post == [] || post[0] == NEWLINE)
  }

  lemma AlignedBorders(pre: Text, post: Text)
    requires Aligned(pre, post)
    ensures LineStart(pre) == |pre| && LineEnd(post) == 0
  {
  }

  /** So where whole lines are replaced, what the guard accepts keeps the file's code lines. */
  lemma AlignedReplacement(pre: Text, old_: Text, new_: Text, post: Text)
    requires Aligned(pre, post) && CodeLines(old_) == CodeLines(new_)
    ensures CodeLines(pre + old_ + post) == CodeLines(pre + new_ + post)
  {
    hide CodeLines, LineEnd, LineStart, Counted, CodeOf;
    ReplacementLawIff(pre, old_, new_, post);
    assert LineStart(pre) == |pre| && LineEnd(post) == 0 by { AlignedBorders(pre, post); }
    assert pre[LineStart(pre)..] == [] && post[..LineEnd(post)] == [];
    assert Touched(pre, old_, post) == old_ && Touched(pre, new_, post) == new_;
  }

  /** Elsewhere it need not: removing the two slashes of a comment turns it into code. */
  lemma UncommentingIsAccepted()
    ensures CodeLines(SLASHES) == CodeLines([])
    ensures CodeLines([] + SLASHES + [120]) != CodeLines([] + [] + [120])
  {
    hide CodeLines, CodeOf;
    assert [] + SLASHES + [120] == SLASHES + [120] && [] + [] + [120] == [120];
    OneLine(SLASHES);
    OneLine([]);
    OneLine(SLASHES + [120]);
    OneLine([120]);
    CommentIsNoCode(SLASHES);
    CommentIsNoCode(SLASHES + [120]);
    NothingIsNoCode();
    LettersAreCode([120]);
  }

  lemma OneLine(s: Text)
    requires forall j :: 0 <= j < |s| ==> s[j] != NEWLINE
    ensures CodeLines(s) == Counted(s)
  {
    hide CodeLines, Counted, LineEnd;
    FirstLine(s);
    assert s[..LineEnd(s)] == s;
  }

  lemma CommentIsNoCode(s: Text)
    requires SLASHES <= s
    ensures CodeOf(s) == None
  {
    assert StripTrailingComment(s) == [];
  }

  lemma NothingIsNoCode()
    ensures CodeOf([]) == None
  {
  }

  /** One or two letters x are code. */
  lemma LettersAreCode(s: Text)
    requires s == [120] || s == [120, 120]
    ensures CodeOf(s) == Some(s)
  {
    hide StripTrailingComment, TrimRunesLeft, TrimRunesRight, IsCommentMarker;
    LettersStay(s);
    LetterIsNoMarker(s);
  }

  /** Nothing is stripped from letters. */
  lemma LettersStay(s: Text)
    requires s == [120] || s == [120, 120]
    ensures StripTrailingComment(s) == s && TrimRunesLeft(s) == s && TrimRunesRight(s) == s
  {
    hide IndexOf, RuneAt, WhiteSpace.IsSpace, EndsWithSpace;
    NoSlashes(s);
    LetterReads(s);
    forall n: nat ensures !EndsWithSpace(s, n) {
      LettersEnd(s, n);
    }
  }

  lemma LettersEnd(s: Text, n: nat)
    requires s == [120] || s == [120, 120]
    ensures !EndsWithSpace(s, n)
  {
    hide RuneAt, WhiteSpace.IsSpace, StartsRune, Width;
    if 0 < n <= |s| {
      LetterReads(s[|s| - n..]);
    }
  }

  lemma LetterReads(s: Text)
    requires s != [] && s[0] == 120
    ensures !WhiteSpace.IsSpace(RuneAt(s))
  {
  }

  lemma LetterIsNoMarker(s: Text)
    requires s != [] && s[0] == 120
    ensures !IsCommentMarker(s)
  {
    forall i | 0 <= i < |MARKERS| ensures !(MARKERS[i] <= s) {
      assert MARKERS[i] != [] && MARKERS[i][0] != s[0];
    }
  }

  lemma {:induction false} NoSlashes(s: Text)
    requires forall i :: 0 <= i < |s| ==> s[i] == 120
    ensures IndexOf(s, SLASHES) == None
  {
    if s != [] {
      assert SLASHES[0] != s[0];
      NoSlashes(s[1..]);
    }
  }
}
