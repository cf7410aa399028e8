/** A list of guarded find-and-replace edits on one file (tools/multiedit.go), and what the guards on the
    single edits promise about the whole file. */
module MultiEdit {
  import opened AsciiGuard
  import opened CommentGuard
  import opened Utf8
  import opened Wrappers

  datatype Edit = Edit(old_: Text, new_: Text, replaceAll: bool)
  datatype Modes = Modes(commentsOnly: bool, asciiOnly: bool)
  datatype Reason = EmptyOld | NotFound | CommentsOnly | AsciiOnly
  datatype FailedEdit = FailedEdit(index: nat, reason: Reason)

  // ----- One edit -----

  function ReplaceFirst(s: Text, old_: Text, new_: Text): Text {
    var i := IndexOf(s, old_);
    if i.Some? then s[..i.value] + new_ + s[i.value + |old_|..] else s
  }

  function ReplaceAll(s: Text, old_: Text, new_: Text): Text
    requires old_ != []
  {
    var i := IndexOf(s, old_);
    if i.Some? then s[..i.value] + new_ + ReplaceAll(s[i.value + |old_|..], old_, new_) else s
  }

  /** Why an edit is not applied, if it is not. */
  ghost function Refusal(modes: Modes, s: Text, e: Edit): Option<Reason> {
    if e.old_ == [] then Some(EmptyOld)
    else if IndexOf(s, e.old_).None? then Some(NotFound)
    else if modes.commentsOnly && CodeLines(e.old_) != CodeLines(e.new_) then Some(CommentsOnly)
    else if modes.asciiOnly && !NoMore(e.old_, e.new_) then Some(AsciiOnly)
    else None
  }

  function Replaced(s: Text, e: Edit): Text {
    if e.old_ == [] then s
    else if e.replaceAll then ReplaceAll(s, e.old_, e.new_)
    else ReplaceFirst(s, e.old_, e.new_)
  }

  ghost function Applied(modes: Modes, s: Text, e: Edit): Text {
    if Refusal(modes, s, e).Some? then s else Replaced(s, e)
  }

  // ----- What a replacement does -----

  function Join(pieces: seq<Text>, separator: Text): Text {
    if pieces == [] then []
    else if |pieces| == 1 then pieces[0]
    else pieces[0] + separator + Join(pieces[1..], separator)
  }

  ghost predicate OccursBefore(s: Text, t: Text, n: nat) {
    exists k: nat :: k < n && OccursAt(s, t, k)
  }

  /** The pieces between the occurrences of a text, each the leftmost behind the one before; the last piece
      holds none. */
  ghost predicate IsSplit(s: Text, old_: Text, pieces: seq<Text>)
    decreases |pieces|
  {
    && pieces != [] && s == Join(pieces, old_)
    && if |pieces| == 1 then !OccursBefore(s, old_, |s| + 1)
       else
         && !OccursBefore(s, old_, |pieces[0]|)
         && IsSplit(Join(pieces[1..], old_), old_, pieces[1..])
  }

  lemma FirstOccurrence(s: Text, t: Text)
    ensures IndexOf(s, t).None? ==> !OccursBefore(s, t, |s| + 1)
    ensures IndexOf(s, t).Some? ==> !OccursBefore(s, t, IndexOf(s, t).value) && OccursAt(s, t, IndexOf(s, t).value)
  {
    hide IndexOf;
    forall k: nat | OccursAt(s, t, k) ensures IndexOf(s, t).Some? && IndexOf(s, t).value <= k {
      IndexIsFirst(s, t, k);
    }
  }

  lemma JoinMore(first: Text, rest: seq<Text>, separator: Text)
    requires rest != []
    ensures Join([first] + rest, separator) == first + separator + Join(rest, separator)
    ensures ([first] + rest)[1..] == rest
  {
    assert ([first] + rest)[1..] == rest;
  }

  /** A global replacement splits the text at the leftmost occurrences that do not overlap, none left over, and
      joins the pieces with the new text. */
  lemma {:induction false} ReplaceAllSplits(s: Text, old_: Text, new_: Text) returns (pieces: seq<Text>)
    requires old_ != []
    ensures IsSplit(s, old_, pieces) && ReplaceAll(s, old_, new_) == Join(pieces, new_)
    decreases |s|
  {
    hide IndexOf, OccursBefore;
    FirstOccurrence(s, old_);
    var i := IndexOf(s, old_);
    if i.None? {
      pieces := [s];
    } else {
      var first, behind := s[..i.value], s[i.value + |old_|..];
      var rest := ReplaceAllSplits(behind, old_, new_);
      pieces := [first] + rest;
      JoinMore(first, rest, old_);
      JoinMore(first, rest, new_);
      assert s == first + old_ + behind;
    }
  }

  /** What one applied edit does: all of the occurrences, or only the first. */
  lemma EditReplaces(s: Text, e: Edit) returns (pieces: seq<Text>)
    requires e.old_ != []
    ensures IsSplit(s, e.old_, pieces)
    ensures Replaced(s, e) == if e.replaceAll then Join(pieces, e.new_)
                              else if |pieces| == 1 then s
                              else pieces[0] + e.new_ + Join(pieces[1..], e.old_)
  {
    hide IndexOf, ReplaceAll, OccursBefore;
    pieces := ReplaceAllSplits(s, e.old_, e.new_);
    FirstOccurrence(s, e.old_);
    if |pieces| > 1 {
      FirstPiece(s, e.old_, pieces);
    } else {
      NoPiece(s, e.old_);
    }
  }

  lemma FirstPiece(s: Text, old_: Text, pieces: seq<Text>)
    requires IsSplit(s, old_, pieces) && |pieces| > 1
    ensures var i := IndexOf(s, old_);
            && i == Some(|pieces[0]|) && s[..i.value] == pieces[0]
            && s[i.value + |old_|..] == Join(pieces[1..], old_)
  {
    hide IndexOf;
    var n := |pieces[0]|;
    assert s == pieces[0] + old_ + Join(pieces[1..], old_);
    assert s[n..n + |old_|] == old_ && OccursAt(s, old_, n);
    IndexIsFirst(s, old_, n);
    assert OccursAt(s, old_, IndexOf(s, old_).value);
  }

  lemma NoPiece(s: Text, old_: Text)
    requires !OccursBefore(s, old_, |s| + 1)
    ensures IndexOf(s, old_).None?
  {
  }

  /** Why an edit is refused: an empty text, a text that does not occur, changed code, or new characters. */
  lemma RefusedIff(modes: Modes, s: Text, e: Edit)
    ensures Refusal(modes, s, e) == Some(EmptyOld) <==> e.old_ == []
    ensures Refusal(modes, s, e) == Some(NotFound) <==> e.old_ != [] && !OccursBefore(s, e.old_, |s| + 1)
    ensures Refusal(modes, s, e) == Some(CommentsOnly) <==>
              && e.old_ != [] && OccursBefore(s, e.old_, |s| + 1)
              && modes.commentsOnly && CodeLines(e.old_) != CodeLines(e.new_)
    ensures Refusal(modes, s, e).None? <==>
              && e.old_ != [] && OccursBefore(s, e.old_, |s| + 1)
              && (modes.commentsOnly ==> CodeLines(e.old_) == CodeLines(e.new_))
              && (modes.asciiOnly ==> NoMore(e.old_, e.new_))
  {
    hide IndexOf, CodeLines, NoMore;
    FirstOccurrence(s, e.old_);
  }

  // ----- The list of edits -----

  ghost function Content(modes: Modes, s: Text, edits: seq<Edit>): Text {
    if edits == [] then s
    else Applied(modes, Content(modes, s, edits[..|edits| - 1]), edits[|edits| - 1])
  }

  ghost function Failures(modes: Modes, s: Text, edits: seq<Edit>): seq<FailedEdit> {
    if edits == [] then []
    else
      var front, last := edits[..|edits| - 1], edits[|edits| - 1];
      var reason := Refusal(modes, Content(modes, s, front), last);
      Failures(modes, s, front) + if reason.Some? then [FailedEdit(|front|, reason.value)] else []
  }

  /** Checks the active guards, comments before characters. */
  method GuardError(modes: Modes, old_: Text, new_: Text) returns (r: Option<Reason>)
    ensures r == if modes.commentsOnly && CodeLines(old_) != CodeLines(new_) then Some(CommentsOnly)
                 else if modes.asciiOnly && !NoMore(old_, new_) then Some(AsciiOnly)
                 else None
  {
    if modes.commentsOnly {
      var ok := ValidateCommentsOnly(old_, new_);
      if !ok {
        return Some(CommentsOnly);
      }
    }
    if modes.asciiOnly {
      var ok := ValidateAsciiOnly(old_, new_);
      if !ok {
        return Some(AsciiOnly);
      }
    }
    r := None;
  }

  /** Applies the edits in order, each to the result of those before it. The file is written only if
      some edit applied; every other edit is reported with its reason. */
  method Run(modes: Modes, file: Text, edits: seq<Edit>)
    returns (written: Option<Text>, applied: nat, failed: seq<FailedEdit>)
    ensures applied + |failed| == |edits| && failed == Failures(modes, file, edits)
    ensures written == if applied > 0 then Some(Content(modes, file, edits)) else None
    ensures applied == 0 ==> Content(modes, file, edits) == file
  {
    hide ReplaceAll, ReplaceFirst, CodeLines, NoMore, IndexOf;
    var content := file;
    applied, failed := 0, [];
    for i := 0 to |edits|
      invariant content == Content(modes, file, edits[..i]) && failed == Failures(modes, file, edits[..i])
      invariant applied + |failed| == i && (applied == 0 ==> content == file)
    {
      assert edits[..i + 1][..i] == edits[..i];
      var e := edits[i];
      if |e.old_| == 0 {
        failed := failed + [FailedEdit(i, EmptyOld)];
        continue;
      }
      if IndexOf(content, e.old_).None? {
        failed := failed + [FailedEdit(i, NotFound)];
        continue;
      }
      var err := GuardError(modes, e.old_, e.new_);
      if err.Some? {
        failed := failed + [FailedEdit(i, err.value)];
        continue;
      }
      if e.replaceAll {
        content := ReplaceAll(content, e.old_, e.new_);
      } else {
        content := ReplaceFirst(content, e.old_, e.new_);
      }
      applied := applied + 1;
    }
    assert edits[..|edits|] == edits;
    written := if applied > 0 then Some(content) else None;
  }

  // ----- ASCII-only: no non-ASCII rune occurs more often -----

  /** The text to find and the replacement come from decoded JSON. */
  ghost predicate ValidEdits(edits: seq<Edit>) {
    forall e :: e in edits ==> Valid(e.old_) && Valid(e.new_)
  }

  ghost predicate Deletes(e: Edit) {
    e.new_ == []
  }

  /** The law, and that a valid file stays valid. */
  ghost predicate Keeps(before: Text, after: Text) {
    NoMore(before, after) && (Valid(before) ==> Valid(after))
  }

  lemma KeepsTransitive(a: Text, b: Text, c: Text)
    requires Keeps(a, b) && Keeps(b, c)
    ensures Keeps(a, c)
  {
    hide Valid, Uses;
    forall r | r > 127 ensures Uses(c, r) <= Uses(a, r) {
      assert Uses(c, r) <= Uses(b, r) <= Uses(a, r);
    }
  }

  /** The parts of a valid file around a valid occurrence are valid. */
  lemma ValidAround(pre: Text, mid: Text, post: Text)
    requires Valid(pre + mid + post) && Valid(mid) && mid != []
    ensures Valid(pre) && Valid(post)
  {
    var s := pre + mid + post;
    ValidStart(mid);
    hide Valid;
    assert s[|pre|] == mid[0] && s[..|pre|] == pre && s[|pre|..] == mid + post;
    ValidSplits(s, |pre|);
    ValidConcat(mid, post);
  }

  /** Replacing an occurrence by text that uses no more, with the rest of the file doing likewise. */
  lemma ReplacementKeeps(pre: Text, old_: Text, new_: Text, post: Text, rest: Text)
    requires Valid(old_) && Valid(new_) && old_ != [] && NoMore(old_, new_) && Keeps(post, rest)
    requires new_ != [] || Valid(pre + old_ + post)
    ensures Keeps(pre + old_ + post, pre + new_ + rest)
  {
    hide Valid, Runes;
    InsertReads(pre, old_, post);
    if Valid(pre + old_ + post) {
      ValidAround(pre, old_, post);
      assert pre + new_ + rest == pre + (new_ + rest);
      ValidConcat(pre, new_ + rest);
      ValidConcat(new_, rest);
      assert Runes(pre + new_ + rest) == Runes(pre) + Runes(new_) + Runes(rest);
    } else {
      InsertReads(pre, new_, rest);
    }
    forall r | r > 127 ensures Uses(pre + new_ + rest, r) <= Uses(pre + old_ + post, r) {
      assert Uses(new_, r) <= Uses(old_, r) && Uses(rest, r) <= Uses(post, r);
      PartsKeep(Runes(pre), Runes(old_), Runes(new_), Runes(post), Runes(rest), r);
    }
  }

  lemma PartsKeep(pre: seq<Rune>, old_: seq<Rune>, new_: seq<Rune>, post: seq<Rune>, rest: seq<Rune>, r: Rune)
    requires multiset(new_)[r] <= multiset(old_)[r] && multiset(rest)[r] <= multiset(post)[r]
    ensures multiset(pre + new_ + rest)[r] <= multiset(pre + old_ + post)[r]
  {
  }

  lemma SplitAtIndex(s: Text, t: Text)
    requires IndexOf(s, t).Some?
    ensures var i := IndexOf(s, t).value;
            i + |t| <= |s| && s == s[..i] + t + s[i + |t|..]
  {
    hide IndexOf;
  }

  lemma {:induction false} ReplaceAllKeeps(s: Text, old_: Text, new_: Text)
    requires Valid(old_) && Valid(new_) && old_ != [] && NoMore(old_, new_)
    requires new_ != [] || Valid(s)
    ensures Keeps(s, ReplaceAll(s, old_, new_))
  {
    hide Valid, NoMore, IndexOf;
    var i := IndexOf(s, old_);
    if i.Some? {
      SplitAtIndex(s, old_);
      var pre, post := s[..i.value], s[i.value + |old_|..];
      if Valid(s) {
        ValidAround(pre, old_, post);
      }
      ReplaceAllKeeps(post, old_, new_);
      ReplacementKeeps(pre, old_, new_, post, ReplaceAll(post, old_, new_));
    } else {
      KeepsItself(s);
    }
  }

  lemma KeepsItself(s: Text)
    ensures Keeps(s, s)
  {
  }

  lemma ReplaceFirstKeeps(s: Text, old_: Text, new_: Text)
    requires Valid(old_) && Valid(new_) && old_ != [] && NoMore(old_, new_)
    requires new_ != [] || Valid(s)
    ensures Keeps(s, ReplaceFirst(s, old_, new_))
  {
    hide Valid, NoMore, IndexOf;
    KeepsItself(s);
    var i := IndexOf(s, old_);
    if i.Some? {
      SplitAtIndex(s, old_);
      var post := s[i.value + |old_|..];
      KeepsItself(post);
      ReplacementKeeps(s[..i.value], old_, new_, post, post);
    }
  }

  /** In ascii-only mode, over any list of edits mixing single and global replacements, no non-ASCII rune
      occurs more often in the final file than in the original, and a valid file stays valid. This
      needs the file to be valid UTF-8, unless no edit deletes its text outright. */
  lemma {:induction false} AsciiLaw(modes: Modes, file: Text, edits: seq<Edit>)
    requires modes.asciiOnly && ValidEdits(edits)
    requires Valid(file) || forall e :: e in edits ==> !Deletes(e)
    ensures Keeps(file, Content(modes, file, edits))
  {
    hide Valid, NoMore, ReplaceAll, ReplaceFirst;
    KeepsItself(file);
    if edits != [] {
      var front, e := edits[..|edits| - 1], edits[|edits| - 1];
      AsciiLaw(modes, file, front);
      var s := Content(modes, file, front);
      KeepsItself(s);
      assert e in edits;
      if Refusal(modes, s, e).None? {
        ReplaceFirstKeeps(s, e.old_, e.new_);
        ReplaceAllKeeps(s, e.old_, e.new_);
      }
      KeepsTransitive(file, s, Applied(modes, s, e));
    }
  }

  /** Where the file is not valid, deleting one letter can put together a quotation mark. */
  lemma DeletionFormsQuote()
    ensures var file: Text := [0xE2, 88, 0x80, 0x99];
            && Content(Modes(false, true), file, [Edit([88], [], false)]) == [0xE2, 0x80, 0x99]
            && Uses(file, 0x2019) == 0 && Uses([0xE2, 0x80, 0x99], 0x2019) == 1
  {
    hide Runes, ReplaceFirst;
    assert [Edit([88], [], false)][..0] == [];
    assert NoMore([88], []) by { PlainReads(); }
    QuoteReads();
    BrokenQuoteReads();
    BrokenQuoteMended();
  }

  lemma PlainReads()
    ensures Runes([88]) == [88] && Runes([]) == []
  {
    assert [88][1..] == [];
  }

  lemma QuoteReads()
    ensures Runes([0xE2, 0x80, 0x99]) == [0x2019]
  {
    var quote: Text := [0xE2, 0x80, 0x99];
    assert StartsRune(quote) && quote[3..] == [];
  }

  lemma BrokenQuoteReads()
    ensures Runes([0xE2, 88, 0x80, 0x99]) == [REPLACEMENT, 88, REPLACEMENT, REPLACEMENT]
  {
    hide Runes;
    var rest: Text := [0x80, 0x99];
    ContinuationsRead(rest, []);
    NoRunes();
    assert Replacements(2) == [REPLACEMENT, REPLACEMENT] by { assert Replacements(1) == [REPLACEMENT]; }
    assert rest + [] == rest;
    Peel([88], rest);
    Peel([0xE2], [88] + rest);
    assert [0xE2] + ([88] + rest) == [0xE2, 88, 0x80, 0x99];
  }

  lemma BrokenQuoteMended()
    ensures IndexOf([0xE2, 88, 0x80, 0x99], [88]).Some?
    ensures ReplaceFirst([0xE2, 88, 0x80, 0x99], [88], []) == [0xE2, 0x80, 0x99]
  {
    var file: Text := [0xE2, 88, 0x80, 0x99];
    assert file[1..] == [88, 0x80, 0x99] && [88] <= file[1..];
    assert [88][0] != file[0] && !([88] <= file);
    assert IndexOf(file[1..], [88]) == Some(0) && IndexOf(file, [88]) == Some(1);
    assert file[..1] + [] + file[2..] == [0xE2, 0x80, 0x99];
  }

  // ----- Comments-only: the code lines of the file stay the same -----

  /** Every occurrence that a global replacement takes stands on lines of its own: it is aligned in the
      text searched, and does not begin where the one before it ended. */
  predicate AllAligned(s: Text, old_: Text, atStart: bool)
    requires old_ != []
    decreases |s|
  {
    var i := IndexOf(s, old_);
    i.None? ||
    (var post := s[i.value + |old_|..];
     && (if i.value == 0 then atStart else s[i.value - 1] == NEWLINE)
     && (post == [] || post[0] == NEWLINE)
     && AllAligned(post, old_, false))
  }

  predicate EditAligned(s: Text, e: Edit) {
    e.old_ == [] ||
    if e.replaceAll then AllAligned(s, e.old_, true)
    else var i := IndexOf(s, e.old_); i.None? || Aligned(s[..i.value], s[i.value + |e.old_|..])
  }

  /** Every edit that is applied is aligned in the content it is applied to. */
  ghost predicate RunAligned(modes: Modes, s: Text, edits: seq<Edit>) {
    edits == [] ||
    var front, last := edits[..|edits| - 1], edits[|edits| - 1];
    var content := Content(modes, s, front);
    RunAligned(modes, s, front) && (Refusal(modes, content, last).None? ==> EditAligned(content, last))
  }

  /** Global replacement behind a part of the file already done. */
  lemma {:induction false} ReplaceAllKeepsCode(done: Text, s: Text, old_: Text, new_: Text)
    requires old_ != [] && AllAligned(s, old_, done == []) && CodeLines(old_) == CodeLines(new_)
    ensures CodeLines(done + ReplaceAll(s, old_, new_)) == CodeLines(done + s)
    decreases |s|
  {
    hide CodeLines, IndexOf, AllAligned;
    var i := IndexOf(s, old_);
    if i.Some? {
      SplitAtIndex(s, old_);
      var front, post := s[..i.value], s[i.value + |old_|..];
      var pre := done + front;
      FirstAligned(done, s, old_);
      AlignedReplacement(pre, old_, new_, post);
      AlignedAnywhere(post, old_, pre + new_ == []);
      ReplaceAllKeepsCode(pre + new_, post, old_, new_);
      assert done + s == pre + old_ + post;
      assert (pre + new_) + ReplaceAll(post, old_, new_) == done + (front + new_ + ReplaceAll(post, old_, new_));
    }
  }

  lemma FirstAligned(done: Text, s: Text, old_: Text)
    requires old_ != [] && IndexOf(s, old_).Some? && AllAligned(s, old_, done == [])
    ensures var i := IndexOf(s, old_).value;
            Aligned(done + s[..i], s[i + |old_|..]) && AllAligned(s[i + |old_|..], old_, false)
  {
    hide IndexOf;
    var i := IndexOf(s, old_).value;
    assert i > 0 ==> (done + s[..i])[|done| + i - 1] == s[i - 1];
  }

  lemma AlignedAnywhere(s: Text, old_: Text, atStart: bool)
    requires old_ != [] && AllAligned(s, old_, false)
    ensures AllAligned(s, old_, atStart)
  {
    hide IndexOf;
  }

  /** In comments-only mode, a list of edits that replaces whole lines keeps the file's multiset of code
      lines. */
  lemma {:induction false} CommentsLaw(modes: Modes, file: Text, edits: seq<Edit>)
    requires modes.commentsOnly && RunAligned(modes, file, edits)
    ensures CodeLines(Content(modes, file, edits)) == CodeLines(file)
  {
    hide CodeLines, IndexOf, ReplaceAll;
    if edits != [] {
      var front, e := edits[..|edits| - 1], edits[|edits| - 1];
      CommentsLaw(modes, file, front);
      var s := Content(modes, file, front);
      if Refusal(modes, s, e).None? {
        if e.replaceAll {
          ReplaceAllKeepsCode([], s, e.old_, e.new_);
          assert [] + s == s && [] + ReplaceAll(s, e.old_, e.new_) == ReplaceAll(s, e.old_, e.new_);
        } else {
          var i := IndexOf(s, e.old_).value;
          SplitAtIndex(s, e.old_);
          AlignedReplacement(s[..i], e.old_, e.new_, s[i + |e.old_|..]);
        }
      }
    }
  }

  /** Alignment of each occurrence alone is not enough: two that share a line end fuse their lines. */
  lemma AdjacentOccurrencesFuse()
    ensures var old_: Text, new_: Text := [NEWLINE, 120, NEWLINE], [120];
            && CodeLines(old_) == CodeLines(new_)
            && Aligned([], old_) && Aligned(old_, [])
            && CodeLines(old_ + old_) == multiset{[120], [120]}
            && ReplaceAll(old_ + old_, old_, new_) == [120, 120]
            && CodeLines([120, 120]) == multiset{[120, 120]}
  {
    hide CodeLines, Counted, LineEnd, IndexOf, ReplaceAll;
    var x: Text := [120];
    var o: Text := [NEWLINE, 120, NEWLINE];
    Letters([]);
    Letters(x);
    Letters([120, 120]);
    assert [] + [NEWLINE] + (x + [NEWLINE]) == o && x + [NEWLINE] + [] == x + [NEWLINE];
    CodeLinesConcat([], x + [NEWLINE]);
    CodeLinesConcat(x, []);
    FusedBefore(o, x);
    BothReplaced(o, x);
  }

  lemma Letters(s: Text)
    requires s == [] || s == [120] || s == [120, 120]
    ensures CodeLines(s) == if s == [] then multiset{} else multiset{s}
  {
    hide CodeLines, CodeOf;
    OneLine(s);
    if s == [] {
      NothingIsNoCode();
    } else {
      LettersAreCode(s);
    }
  }

  lemma FusedBefore(o: Text, x: Text)
    requires o == [NEWLINE] + x + [NEWLINE]
    ensures CodeLines(o + o) == CodeLines([]) + CodeLines(x) + CodeLines([]) + CodeLines(x) + CodeLines([])
  {
    hide CodeLines;
    CodeLinesConcat(o, x + [NEWLINE]);
    CodeLinesConcat([], x + [NEWLINE]);
    CodeLinesConcat(x, []);
    assert [] + [NEWLINE] + (x + [NEWLINE]) == o && x + [NEWLINE] + [] == x + [NEWLINE];
    assert o + [NEWLINE] + (x + [NEWLINE]) == o + o;
  }

  lemma BothReplaced(o: Text, x: Text)
    requires o != []
    ensures ReplaceAll(o + o, o, x) == x + x
  {
    assert o <= o + o && (o + o)[|o|..] == o && (o + o)[..0] == [];
    assert o[|o|..] == [] && o[..0] == [];
    assert !(o <= []);
    assert IndexOf([], o) == None && ReplaceAll([], o, x) == [];
    assert ReplaceAll(o, o, x) == [] + x + [];
    assert [] + x + x == x + x;
  }
}
