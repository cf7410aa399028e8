/** The frontmatter of a skill manifest (skill/manifest.go): splitting a file at its fences, and that this
    undoes printing one. */
module Frontmatter {
  import opened Utf8
  import opened Wrappers

  const BOM: Text := [0xEF, 0xBB, 0xBF]
  const FENCE: Text := [45, 45, 45]
  const RETURN: Byte := 13

  function TrimReturns(line: Text): Text {
    if line != [] && line[|line| - 1] == RETURN then TrimReturns(line[..|line| - 1]) else line
  }

  /** Three dashes, and any carriage returns. */
  predicate IsFence(line: Text) {
    TrimReturns(line) == FENCE
  }

  datatype Parts = Parts(body: Text, frontmatter: Text) | MissingFence | Unterminated

  // ----- The split -----

  /** Where the first fence line begins. */
  function ClosingFence(data: Text): (i: Option<nat>)
    ensures i.Some? ==> i.value < |data|
  {
    var end := LineEnd(data);
    if data == [] then None
    else if IsFence(data[..end]) then Some(0)
    else if end == |data| then None
    else
      var i := ClosingFence(data[end + 1..]);
      if i.Some? then Some(end + 1 + i.value) else None
  }

  function WithoutBom(data: Text): Text {
    if BOM <= data then data[|BOM|..] else data
  }

  /** What follows the first line. */
  function AfterLine(data: Text): Text {
    if LineEnd(data) < |data| then data[LineEnd(data) + 1..] else []
  }

  function Split(file: Text): Parts {
    var data := WithoutBom(file);
    if data == [] || !IsFence(data[..LineEnd(data)]) then MissingFence
    else
      var rest := AfterLine(data);
      var end := ClosingFence(rest);
      if end.None? then Unterminated else Parts(AfterLine(rest[end.value..]), rest[..end.value])
  }

  /** The search goes on behind the first line unless that is a fence or the last. */
  lemma FenceStep(data: Text, offset: nat)
    requires offset < |data|
    ensures var nl := LineEnd(data[offset..]);
            && data[offset..][..nl] == data[offset..offset + nl]
            && ClosingFence(data[offset..]) ==
                 if IsFence(data[offset..offset + nl]) then Some(0)
                 else if offset + nl == |data| then None
                 else
                   var later := ClosingFence(data[offset + nl + 1..]);
                   if later.Some? then Some(nl + 1 + later.value) else None
  {
    hide LineEnd, IsFence;
    var nl := LineEnd(data[offset..]);
    assert data[offset..][..nl] == data[offset..offset + nl];
    if offset + nl < |data| {
      assert data[offset..][nl + 1..] == data[offset + nl + 1..];
    }
  }

  method IndexClosingFence(data: Text) returns (index: Option<nat>)
    ensures index == ClosingFence(data)
  {
    hide IsFence, ClosingFence, LineEnd;
    var offset := 0;
    assert data[0..] == data;
    while offset < |data|
      invariant 0 <= offset <= |data|
      invariant ClosingFence(data) ==
                  (var later := ClosingFence(data[offset..]);
                   if later.Some? then Some(offset + later.value) else None)
    {
      FenceStep(data, offset);
      var nl := LineEnd(data[offset..]);
      if IsFence(data[offset..offset + nl]) {
        return Some(offset);
      }
      if offset + nl == |data| {
        return None;
      }
      offset := offset + nl + 1;
    }
    NoFence(data[offset..]);
    index := None;
  }

  lemma NoFence(data: Text)
    requires data == []
    ensures ClosingFence(data) == None
  {
  }

  method SplitFrontmatter(file: Text) returns (parts: Parts)
    ensures parts == Split(file)
  {
    var data := file;
    if BOM <= data {
      data := data[|BOM|..];
    }
    if data == [] {
      return MissingFence;
    }
    var nl := LineEnd(data);
    if !IsFence(data[..nl]) {
      return MissingFence;
    }
    var rest := if nl < |data| then data[nl + 1..] else [];
    var end := IndexClosingFence(rest);
    if end.None? {
      return Unterminated;
    }
    parts := Parts(AfterLine(rest[end.value..]), rest[..end.value]);
  }

  // ----- Printing -----

  /** How a file is laid out around its frontmatter and body. */
  datatype Layout = Layout(bom: bool, opening: Text, closing: Text, terminated: bool)

  predicate IsLayout(l: Layout, body: Text) {
    && NEWLINE !in l.opening && IsFence(l.opening)
    && NEWLINE !in l.closing && IsFence(l.closing)
    && (!l.terminated ==> body == [])
  }

  function Print(l: Layout, front: Text, body: Text): Text {
    (if l.bom then [0xEF, 0xBB, 0xBF] else [])
    + (l.opening + [10] + (front + (l.closing + if l.terminated then [10] + body else [])))
  }

  /** A fence is three dashes, and nothing behind them but carriage returns. */
  lemma {:induction false} FenceIff(line: Text)
    ensures IsFence(line) <==>
              |line| >= 3 && line[..3] == [45, 45, 45] && forall i :: 3 <= i < |line| ==> line[i] == 13
  {
    if line != [] && line[|line| - 1] == RETURN {
      var front := line[..|line| - 1];
      FenceIff(front);
      if |line| > 3 {
        assert front[..3] == line[..3] && forall i :: 3 <= i < |front| ==> front[i] == line[i];
      } else if |line| == 3 {
        assert line[..3][2] == 13;
      }
    } else if |line| >= 3 {
      assert |line| > 3 ==> line[|line| - 1] != 13;
      assert |line| == 3 ==> line[..3] == line;
    }
  }

  /** Complete lines, none of them a fence. */
  predicate FenceFree(front: Text) {
    front == [] ||
    (var end := LineEnd(front);
     end < |front| && !IsFence(front[..end]) && FenceFree(front[end + 1..]))
  }

  // ----- Splitting undoes printing -----

  lemma FirstLineOf(line: Text, rest: Text)
    requires NEWLINE !in line
    ensures var s := line + [NEWLINE] + rest;
            LineEnd(s) == |line| && s[..|line|] == line && s[|line| + 1..] == rest && AfterLine(s) == rest
  {
    hide LineEnd;
    SplitAtNewline(line, rest);
  }

  lemma OnlyLine(line: Text)
    requires NEWLINE !in line
    ensures LineEnd(line) == |line| && line[..|line|] == line && AfterLine(line) == []
  {
  }

  /** The closing line as it is found at the end of the frontmatter. */
  lemma ClosingLine(l: Layout, body: Text)
    requires IsLayout(l, body)
    ensures var rest := l.closing + if l.terminated then [NEWLINE] + body else [];
            ClosingFence(rest) == Some(0) && AfterLine(rest) == body
  {
    hide AfterLine, LineEnd;
    assert l.closing != [];
    if l.terminated {
      FirstLineOf(l.closing, body);
      assert l.closing + ([NEWLINE] + body) == l.closing + [NEWLINE] + body;
    } else {
      OnlyLine(l.closing);
      assert l.closing + [] == l.closing;
    }
  }

  /** The first line of the frontmatter is also the first line of the file. */
  lemma FrontLine(front: Text, rest: Text)
    requires LineEnd(front) < |front|
    ensures var end := LineEnd(front);
            && LineEnd(front + rest) == end && (front + rest)[..end] == front[..end]
            && (front + rest)[end + 1..] == front[end + 1..] + rest
  {
    hide LineEnd, AfterLine;
    var end := LineEnd(front);
    var line, more := front[..end], front[end + 1..];
    assert front == line + [NEWLINE] + more;
    assert front + rest == line + [NEWLINE] + (more + rest);
    FirstLineOf(line, more + rest);
  }

  lemma FenceNext(data: Text, more: Text)
    requires LineEnd(data) < |data| && !IsFence(data[..LineEnd(data)]) && more == data[LineEnd(data) + 1..]
    requires ClosingFence(more).Some?
    ensures ClosingFence(data) == Some(LineEnd(data) + 1 + ClosingFence(more).value)
  {
    hide LineEnd, IsFence;
  }

  lemma {:induction false} FenceBehind(front: Text, rest: Text)
    requires FenceFree(front) && ClosingFence(rest) == Some(0)
    ensures ClosingFence(front + rest) == Some(|front|)
  {
    hide LineEnd, IsFence, AfterLine, ClosingFence;
    if front == [] {
      assert front + rest == rest;
    } else {
      var more := front[LineEnd(front) + 1..];
      FenceBehind(more, rest);
      FrontLine(front, rest);
      FenceNext(front + rest, more + rest);
    }
  }

  lemma NoBom(l: Layout, text: Text)
    requires IsFence(l.opening)
    ensures WithoutBom((if l.bom then BOM else []) + (l.opening + text)) == l.opening + text
  {
    FenceFirst(l.opening);
    var data := l.opening + text;
    assert data[0] == 45 && BOM[0] != 45;
    if l.bom {
      assert (BOM + data)[|BOM|..] == data;
    } else {
      assert [] + data == data && !(BOM <= data);
    }
  }

  lemma {:induction false} FenceFirst(line: Text)
    requires IsFence(line)
    ensures line != [] && line[0] == 45
  {
    if line[|line| - 1] == RETURN {
      FenceFirst(line[..|line| - 1]);
    }
  }

  /** For frontmatter of complete non-fence lines and any body, splitting the printed file gives both
      back, with or without a byte order mark, whatever the line ends of the fences. */
  lemma SplitUndoesPrint(l: Layout, front: Text, body: Text)
    requires IsLayout(l, body) && FenceFree(front)
    ensures Split(Print(l, front, body)) == Parts(body, front)
  {
    hide LineEnd, IsFence, FenceFree, ClosingFence, AfterLine, WithoutBom;
    var tail := l.closing + if l.terminated then [NEWLINE] + body else [];
    NoBom(l, [NEWLINE] + (front + tail));
    assert l.opening + [NEWLINE] + (front + tail) == l.opening + ([NEWLINE] + (front + tail));
    FirstLineOf(l.opening, front + tail);
    ClosingLine(l, body);
    FenceBehind(front, tail);
    assert (front + tail)[..|front|] == front && (front + tail)[|front|..] == tail;
  }

  // ----- And every split comes from such a file -----

  lemma {:induction false} BeforeFence(data: Text)
    requires ClosingFence(data).Some?
    ensures var i := ClosingFence(data).value; FenceFree(data[..i]) && ClosingFence(data[i..]) == Some(0)
  {
    hide LineEnd, IsFence;
    var end, i := LineEnd(data), ClosingFence(data).value;
    if IsFence(data[..end]) {
      assert data[i..] == data && data[..i] == [];
    } else {
      var line, rest := data[..end], data[end + 1..];
      BeforeFence(rest);
      var j := ClosingFence(rest).value;
      assert data[i..] == rest[j..] && data[..i] == line + [NEWLINE] + rest[..j];
      FirstLineOf(line, rest[..j]);
    }
  }

  /** A line that is its text's first, with what follows it. */
  lemma TakeLine(data: Text) returns (line: Text, terminated: bool)
    ensures NEWLINE !in line && line == data[..LineEnd(data)]
    ensures data == line + if terminated then [NEWLINE] + AfterLine(data) else []
    ensures !terminated ==> AfterLine(data) == []
  {
    line, terminated := data[..LineEnd(data)], LineEnd(data) < |data|;
  }

  /** Every file that splits is laid out as a printed one, closed by its first fence line. */
  lemma SplitComesFromPrint(file: Text) returns (l: Layout)
    requires Split(file).Parts?
    ensures var Parts(body, front) := Split(file);
            IsLayout(l, body) && FenceFree(front) && file == Print(l, front, body)
  {
    hide LineEnd, IsFence, FenceFree, ClosingFence, AfterLine;
    var data := WithoutBom(file);
    var opening, _ := TakeLine(data);
    var rest := AfterLine(data);
    var end := ClosingFence(rest).value;
    var closing, terminated := TakeLine(rest[end..]);
    BeforeFence(rest);
    FenceAtStart(rest[end..]);
    l := Layout(BOM <= file, opening, closing, terminated);
    assert file == (if l.bom then BOM else []) + data;
    assert rest == rest[..end] + rest[end..];
    assert data == opening + [NEWLINE] + rest;
  }

  lemma FenceAtStart(data: Text)
    requires ClosingFence(data) == Some(0)
    ensures IsFence(data[..LineEnd(data)])
  {
    hide LineEnd, IsFence;
  }

  /** Together: a file splits into a body and a frontmatter exactly if it is those two, printed. */
  lemma SplitIff(file: Text, front: Text, body: Text)
    ensures Split(file) == Parts(body, front) <==>
            FenceFree(front) && exists l :: IsLayout(l, body) && file == Print(l, front, body)
  {
    hide Split, Print, FenceFree, IsLayout;
    if Split(file) == Parts(body, front) {
      var l := SplitComesFromPrint(file);
    }
    if FenceFree(front) && exists l :: IsLayout(l, body) && file == Print(l, front, body) {
      var l :| IsLayout(l, body) && file == Print(l, front, body);
      SplitUndoesPrint(l, front, body);
    }
  }
}
