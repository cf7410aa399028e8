/** Byte strings as Go reads them: UTF-8 (RFC 3629, section 4), in which every byte that starts no valid
    sequence reads as one U+FFFD. */
module Utf8 {
  import opened Wrappers

  type Byte = b: int | 0 <= b < 256 witness 0
  type Text = seq<Byte>
  type Rune = int

  const REPLACEMENT: Rune := 0xFFFD

  predicate IsCont(b: Byte) {
    0x80 <= b <= 0xBF
  }

  /** The length of the sequences a byte can start, or 0. */
  function SeqLen(b: Byte): nat {
    if b < 0x80 then 1
    else if 0xC2 <= b <= 0xDF then 2
    else if 0xE0 <= b <= 0xEF then 3
    else if 0xF0 <= b <= 0xF4 then 4
    else 0
  }

  /** Second bytes are restricted to rule out overlong forms, surrogates and too large values. */
  predicate SecondFits(first: Byte, second: Byte) {
    && IsCont(second)
    && (first == 0xE0 ==> 0xA0 <= second)
    && (first == 0xED ==> second <= 0x9F)
    && (first == 0xF0 ==> 0x90 <= second)
    && (first == 0xF4 ==> second <= 0x8F)
  }

  predicate StartsRune(s: Text) {
    && s != [] && 1 <= SeqLen(s[0]) <= |s|
    && (SeqLen(s[0]) >= 2 ==> SecondFits(s[0], s[1]))
    && (SeqLen(s[0]) >= 3 ==> IsCont(s[2]))
    && (SeqLen(s[0]) >= 4 ==> IsCont(s[3]))
  }

  function Width(s: Text): (w: nat)
    requires s != []
    ensures 1 <= w <= |s|
  {
    if StartsRune(s) then SeqLen(s[0]) else 1
  }

  function RuneAt(s: Text): Rune
    requires s != []
  {
    if !StartsRune(s) then REPLACEMENT
    else
      var bits: (int, int) -> int := (byte, mark) => byte - mark;
      match SeqLen(s[0])
      case 1 => s[0]
      case 2 => bits(s[0], 0xC0) * 0x40 + bits(s[1], 0x80)
      case 3 => bits(s[0], 0xE0) * 0x1000 + bits(s[1], 0x80) * 0x40 + bits(s[2], 0x80)
      case _ => bits(s[0], 0xF0) * 0x40000 + bits(s[1], 0x80) * 0x1000 + bits(s[2], 0x80) * 0x40 + bits(s[3], 0x80)
  }

  function Runes(s: Text): seq<Rune> {
    if s == [] then [] else [RuneAt(s)] + Runes(s[Width(s)..])
  }

  predicate Valid(s: Text) {
    s == [] || (StartsRune(s) && Valid(s[Width(s)..]))
  }

  function Replacements(n: nat): seq<Rune> {
    if n == 0 then [] else [REPLACEMENT] + Replacements(n - 1)
  }

  // ----- Encoding -----

  /** The characters that UTF-8 encodes: all but the surrogates. */
  predicate IsScalar(r: int) {
    0 <= r <= 0xD7FF || 0xE000 <= r <= 0x10FFFF
  }

  /** The byte sequence of a character, as RFC 3629 lays it out. */
  function Encoding(r: int): Text
    requires IsScalar(r)
  {
    var low, rest := 0x80 + r % 0x40, r / 0x40;
    var mid, high := 0x80 + rest % 0x40, rest / 0x40;
    if r <= 0x7F then [r]
    else if r <= 0x7FF then [0xC0 + rest, low]
    else if r <= 0xFFFF then [0xE0 + high, mid, low]
    else [0xF0 + high / 0x40, 0x80 + high % 0x40, mid, low]
  }

  lemma TwoBytes(a: Byte, b: Byte, more: Text)
    requires SeqLen(a) == 2 && SecondFits(a, b)
    ensures var s := [a, b] + more;
            StartsRune(s) && Width(s) == 2 && RuneAt(s) == (a as int - 0xC0) * 0x40 + (b as int - 0x80)
  {
    var s := [a, b] + more;
    assert s[0] == a && s[1] == b;
  }

  lemma ThreeBytes(a: Byte, b: Byte, c: Byte, more: Text)
    requires SeqLen(a) == 3 && SecondFits(a, b) && IsCont(c)
    ensures var s := [a, b, c] + more;
            && StartsRune(s) && Width(s) == 3
            && RuneAt(s) == (a as int - 0xE0) * 0x1000 + (b as int - 0x80) * 0x40 + (c as int - 0x80)
  {
    var s := [a, b, c] + more;
    assert s[0] == a && s[1] == b && s[2] == c;
  }

  lemma FourBytes(a: Byte, b: Byte, c: Byte, d: Byte, more: Text)
    requires SeqLen(a) == 4 && SecondFits(a, b) && IsCont(c) && IsCont(d)
    ensures var s := [a, b, c, d] + more;
            && StartsRune(s) && Width(s) == 4
            && RuneAt(s) == (a as int - 0xF0) * 0x40000 + (b as int - 0x80) * 0x1000
                            + (c as int - 0x80) * 0x40 + (d as int - 0x80)
  {
    var s := [a, b, c, d] + more;
    assert s[0] == a && s[1] == b && s[2] == c && s[3] == d;
  }

  lemma OneByte(a: Byte, more: Text)
    requires a < 0x80
    ensures var s := [a] + more; StartsRune(s) && Width(s) == 1 && RuneAt(s) == a
  {
  }

  /** Every encoded character reads as itself, whatever follows. */
  lemma EncodedReads(r: int, more: Text)
    requires IsScalar(r)
    ensures var s := Encoding(r) + more; StartsRune(s) && Width(s) == |Encoding(r)| && RuneAt(s) == r
  {
    hide StartsRune, RuneAt, Width;
    var e := Encoding(r);
    if r <= 0x7F {
      OneByte(r, more);
    } else if r <= 0x7FF {
      TwoBytes(e[0], e[1], more);
    } else if r <= 0xFFFF {
      ThreeBytes(e[0], e[1], e[2], more);
    } else {
      FourBytes(e[0], e[1], e[2], e[3], more);
    }
  }

  /** The last digit of a number in base 64. */
  lemma LastDigit(q: nat, d: nat)
    requires d < 0x40
    ensures (q * 0x40 + d) / 0x40 == q && (q * 0x40 + d) % 0x40 == d
  {
  }

  lemma EncodesTwo(a: Byte, b: Byte)
    requires SeqLen(a) == 2 && SecondFits(a, b)
    ensures var r := (a as int - 0xC0) * 0x40 + (b as int - 0x80); IsScalar(r) && Encoding(r) == [a, b]
  {
    LastDigit(a as int - 0xC0, b as int - 0x80);
  }

  lemma EncodesThree(a: Byte, b: Byte, c: Byte)
    requires SeqLen(a) == 3 && SecondFits(a, b) && IsCont(c)
    ensures var r := (a as int - 0xE0) * 0x1000 + (b as int - 0x80) * 0x40 + (c as int - 0x80);
            IsScalar(r) && Encoding(r) == [a, b, c]
  {
    var x, y, z: nat := a as int - 0xE0, b as int - 0x80, c as int - 0x80;
    LastDigit(x, y);
    LastDigit(x * 0x40 + y, z);
    assert x * 0x1000 + y * 0x40 + z == (x * 0x40 + y) * 0x40 + z;
  }

  lemma EncodesFour(a: Byte, b: Byte, c: Byte, d: Byte)
    requires SeqLen(a) == 4 && SecondFits(a, b) && IsCont(c) && IsCont(d)
    ensures var r := (a as int - 0xF0) * 0x40000 + (b as int - 0x80) * 0x1000 + (c as int - 0x80) * 0x40
                     + (d as int - 0x80);
            IsScalar(r) && Encoding(r) == [a, b, c, d]
  {
    var w, x, y, z: nat := a as int - 0xF0, b as int - 0x80, c as int - 0x80, d as int - 0x80;
    var high, mid := w * 0x40 + x, (w * 0x40 + x) * 0x40 + y;
    LastDigit(w, x);
    LastDigit(high, y);
    LastDigit(mid, z);
    assert w * 0x40000 + x * 0x1000 + y * 0x40 + z == mid * 0x40 + z;
  }

  /** And whatever reads as a character is its encoding. */
  lemma ReadIsEncoded(s: Text)
    requires StartsRune(s)
    ensures IsScalar(RuneAt(s)) && Encoding(RuneAt(s)) == s[..Width(s)]
  {
    hide RuneAt, Width, Encoding, IsScalar;
    var n := SeqLen(s[0]);
    var more := s[n..];
    if n == 1 {
      assert s == [s[0]] + more && s[..1] == [s[0]];
      OneByte(s[0], more);
      EncodesOne(s[0]);
    } else if n == 2 {
      assert s == [s[0], s[1]] + more && s[..2] == [s[0], s[1]];
      TwoBytes(s[0], s[1], more);
      EncodesTwo(s[0], s[1]);
    } else if n == 3 {
      assert s == [s[0], s[1], s[2]] + more && s[..3] == [s[0], s[1], s[2]];
      ThreeBytes(s[0], s[1], s[2], more);
      EncodesThree(s[0], s[1], s[2]);
    } else {
      assert s == [s[0], s[1], s[2], s[3]] + more && s[..4] == [s[0], s[1], s[2], s[3]];
      FourBytes(s[0], s[1], s[2], s[3], more);
      EncodesFour(s[0], s[1], s[2], s[3]);
    }
  }

  lemma EncodesOne(a: Byte)
    requires a < 0x80
    ensures IsScalar(a) && Encoding(a) == [a]
  {
  }

  // ----- Searching -----

  predicate OccursAt(s: Text, t: Text, i: nat) {
    i + |t| <= |s| && s[i..i + |t|] == t
  }

  /** Where `t` first occurs in `s`. */
  function IndexOf(s: Text, t: Text): (i: Option<nat>)
    ensures i.Some? ==> OccursAt(s, t, i.value)
  {
    if t <= s then Some(0)
    else if s == [] then None
    else
      var i := IndexOf(s[1..], t);
      if i.Some? then Some(i.value + 1) else None
  }

  lemma {:induction false} IndexIsFirst(s: Text, t: Text, j: nat)
    requires OccursAt(s, t, j)
    ensures IndexOf(s, t).Some? && IndexOf(s, t).value <= j
  {
    if !(t <= s) {
      assert j > 0 && s[1..][j - 1..j - 1 + |t|] == s[j..j + |t|];
      IndexIsFirst(s[1..], t, j - 1);
    }
  }

  const NEWLINE: Byte := 10

  /** Where the first line ends. */
  function LineEnd(s: Text): (i: nat)
    ensures i <= |s| && (i < |s| ==> s[i] == NEWLINE) && forall j :: 0 <= j < i ==> s[j] != NEWLINE
  {
    if s == [] || s[0] == NEWLINE then 0 else 1 + LineEnd(s[1..])
  }

  lemma FirstLineStays(a: Text, b: Text)
    ensures LineEnd(a + [NEWLINE] + b) == LineEnd(a)
  {
    hide LineEnd;
    var s := a + [NEWLINE] + b;
    assert forall j :: 0 <= j < |a| ==> s[j] == a[j];
    assert s[|a|] == NEWLINE;
    assert LineEnd(s) < |s| && LineEnd(a) < |s|;
    assert s[LineEnd(a)] == NEWLINE;
  }

  lemma SplitAtNewline(line: Text, rest: Text)
    requires NEWLINE !in line
    ensures var s := line + [NEWLINE] + rest;
            LineEnd(s) == |line| && s[..|line|] == line && s[|line| + 1..] == rest
  {
    FirstLineStays(line, rest);
    assert LineEnd(line) == |line|;
    var s := line + [NEWLINE] + rest;
    assert s[..|line|] == line && s[|line| + 1..] == rest;
  }

  // ----- Where two texts meet -----

  /** The end of one text and the beginning of the next together form a rune, which neither holds. */
  datatype Seam = Seam(before: Text, head: Text, tail: Text, after: Text)

  ghost predicate Joins(a: Text, b: Text, m: Seam) {
    && a == m.before + m.head && b == m.tail + m.after && m.head != [] && m.tail != []
    && StartsRune(m.head + m.tail) && Width(m.head + m.tail) == |m.head + m.tail|
  }

  lemma FirstRuneStays(s: Text, more: Text)
    requires s != []
    ensures StartsRune(s) ==> StartsRune(s + more)
    ensures StartsRune(s + more) && Width(s + more) <= |s| ==> StartsRune(s)
    ensures Width(s + more) <= |s| ==> Width(s + more) == Width(s) && RuneAt(s + more) == RuneAt(s)
    ensures StartsRune(s + more) && !StartsRune(s) ==> Width(s + more) > |s|
  {
    assert forall i :: 0 <= i < |s| ==> (s + more)[i] == s[i];
  }

  /** Bytes that continue a sequence read as replacements on their own. */
  lemma {:induction false} ContinuationsRead(k: Text, b: Text)
    requires forall i :: 0 <= i < |k| ==> IsCont(k[i])
    ensures Runes(k + b) == Replacements(|k|) + Runes(b)
  {
    hide StartsRune, RuneAt, Width;
    if k == [] {
      assert k + b == b;
    } else {
      ContinuationsRead(k[1..], b);
      ContinuationReads(k + b);
      assert (k + b)[1..] == k[1..] + b;
    }
  }

  lemma ContinuationReads(s: Text)
    requires s != [] && IsCont(s[0])
    ensures Width(s) == 1 && RuneAt(s) == REPLACEMENT
  {
  }

  lemma InnerBytesContinue(s: Text, i: nat)
    requires StartsRune(s) && 1 <= i < Width(s)
    ensures IsCont(s[i])
  {
  }

  /** A proper part of a sequence reads as replacements. */
  lemma HalvesRead(head: Text, tail: Text, after: Text)
    requires head != [] && tail != []
    requires StartsRune(head + tail) && Width(head + tail) == |head + tail|
    ensures Runes(head) == Replacements(|head|)
    ensures Runes(tail + after) == Replacements(|tail|) + Runes(after)
    ensures Runes(head + tail) == [RuneAt(head + tail)]
  {
    var s := head + tail;
    forall i | 0 <= i < |tail| ensures IsCont(tail[i]) {
      InnerBytesContinue(s, |head| + i);
    }
    ContinuationsRead(tail, after);
    forall i | 0 <= i < |head| - 1 ensures IsCont(head[1..][i]) {
      InnerBytesContinue(s, 1 + i);
    }
    FirstRuneStays(head, tail);
    ContinuationsRead(head[1..], []);
    assert head[1..] + [] == head[1..];
    assert s[|s|..] == [];
  }

  lemma Peel(first: Text, rest: Text)
    requires first != [] && Width(first + rest) == |first|
    ensures Runes(first + rest) == [RuneAt(first + rest)] + Runes(rest)
  {
    hide RuneAt, Width;
    assert (first + rest)[|first|..] == rest;
  }

  /** The first rune does not depend on what follows behind it. */
  lemma PeelPrefix(first: Text, rest: Text, more: Text)
    requires first != [] && Width(first + (rest + more)) == |first|
    ensures Width(first + rest) == |first|
    ensures Runes(first + rest) == [RuneAt(first + (rest + more))] + Runes(rest)
    ensures Runes(first + (rest + more)) == [RuneAt(first + (rest + more))] + Runes(rest + more)
  {
    hide RuneAt, Width, StartsRune, Runes;
    assert first + (rest + more) == (first + rest) + more;
    FirstRuneStays(first + rest, more);
    Peel(first, rest);
    Peel(first, rest + more);
  }

  /** How the two texts read, given what forms across their seam. */
  ghost predicate Reads(a: Text, b: Text, m: Option<Seam>) {
    match m
    case None => Runes(a + b) == Runes(a) + Runes(b)
    case Some(x) =>
      && Joins(a, b, x)
      && Runes(a) == Runes(x.before) + Replacements(|x.head|)
      && Runes(b) == Replacements(|x.tail|) + Runes(x.after)
      && Runes(a + b) == Runes(x.before) + [RuneAt(x.head + x.tail)] + Runes(x.after)
  }

  /** Reading two texts in a row gives the runes of both, unless a rune forms across the seam: then
      that one takes the place of the replacements its two parts read as. */
  lemma {:induction false} SeamReads(a: Text, b: Text) returns (m: Option<Seam>)
    ensures Reads(a, b, m)
  {
    hide StartsRune, RuneAt, Width, Joins;
    if a == [] {
      assert a + b == b;
      m := None;
    } else if Width(a + b) <= |a| {
      FirstRuneStays(a, b);
      var first, rest := a[..Width(a)], a[Width(a)..];
      assert a == first + rest && a + b == first + (rest + b);
      var inner := SeamReads(rest, b);
      if inner.None? {
        PeelPrefix(first, rest, b);
        m := None;
      } else {
        SeamBehind(first, rest, b, inner.value);
        m := Some(inner.value.(before := first + inner.value.before));
      }
    } else {
      var n := Width(a + b) - |a|;
      assert b == b[..n] + b[n..] && (a + b[..n]) + b[n..] == a + b;
      SeamInFirst(a, b[..n], b[n..]);
      m := Some(Seam([], a, b[..n], b[n..]));
    }
  }

  lemma SeamBehind(first: Text, rest: Text, b: Text, x: Seam)
    requires first != [] && Width(first + (rest + b)) == |first| && Reads(rest, b, Some(x))
    ensures Reads(first + rest, b, Some(x.(before := first + x.before)))
  {
    hide RuneAt, Width, StartsRune, Runes, Replacements;
    var c, y := RuneAt(first + (rest + b)), x.(before := first + x.before);
    PeelPrefix(first, rest, b);
    assert rest + b == x.before + (x.head + b);
    PeelPrefix(first, x.before, x.head + b);
    assert (first + rest) + b == first + (rest + b);
    assert first + rest == y.before + y.head;
    assert Runes(first + rest) == Runes(y.before) + Replacements(|y.head|);
    assert Runes((first + rest) + b) == Runes(y.before) + [RuneAt(y.head + y.tail)] + Runes(y.after);
  }

  lemma SeamInFirst(a: Text, tail: Text, after: Text)
    requires a != [] && tail != [] && Width((a + tail) + after) == |a + tail|
    ensures Reads(a, tail + after, Some(Seam([], a, tail, after)))
  {
    hide RuneAt, Width, StartsRune, Runes, Replacements;
    WholeRune(a + tail, after);
    assert [] + a == a;
    HalvesRead(a, tail, after);
    assert (a + tail) + after == a + (tail + after);
    Peel(a + tail, after);
    NoRunes();
    assert [] + Replacements(|a|) == Replacements(|a|);
    assert [] + [RuneAt(a + tail)] + Runes(after) == [RuneAt(a + tail)] + Runes(after);
  }

  lemma NoRunes()
    ensures Runes([]) == []
  {
  }

  lemma WholeRune(s: Text, after: Text)
    requires |s| > 1 && Width(s + after) == |s|
    ensures StartsRune(s) && Width(s) == |s| && RuneAt(s + after) == RuneAt(s)
  {
    assert forall i :: 0 <= i < |s| ==> (s + after)[i] == s[i];
  }

  /** Whatever can form across the seam does form. */
  lemma {:induction false} JoinReads(a: Text, b: Text, x: Seam)
    requires Joins(a, b, x)
    ensures Reads(a, b, Some(x))
    decreases |x.before|
  {
    hide StartsRune, RuneAt, Width, Runes;
    if x.before == [] {
      assert a == x.head;
      WholeRuneStarts(x.head + x.tail, x.after);
      SeamInFirst(x.head, x.tail, x.after);
    } else {
      var w := Width(a + b);
      assert w <= |x.before| by {
        LeadIsNotInner(a + b, |x.before|, x.head + x.tail);
      }
      var first, rest := x.before[..w], x.before[w..];
      assert a == first + (rest + x.head) && a + b == first + ((rest + x.head) + b);
      JoinReads(rest + x.head, b, x.(before := rest));
      SeamBehind(first, rest + x.head, b, x.(before := rest));
      assert first + rest == x.before;
    }
  }

  lemma WholeRuneStarts(s: Text, after: Text)
    requires StartsRune(s) && Width(s) == |s|
    ensures Width(s + after) == |s|
  {
    FirstRuneStays(s, after);
  }

  lemma LeadIsNotInner(s: Text, i: nat, r: Text)
    requires i < |s| && StartsRune(r) && s[i] == r[0] && i > 0
    ensures Width(s) <= i
  {
    if StartsRune(s) && i < Width(s) {
      InnerBytesContinue(s, i);
    }
  }

  // ----- Valid texts -----

  /** In a valid text every byte that does not continue a sequence begins one. */
  lemma {:induction false} ValidSplits(s: Text, i: nat)
    requires Valid(s) && i <= |s| && (i < |s| ==> !IsCont(s[i]))
    ensures Valid(s[..i]) && Valid(s[i..])
  {
    hide StartsRune, Width;
    if i > 0 {
      var w := Width(s);
      if i < w {
        InnerBytesContinue(s, i);
      }
      assert i >= w;
      ValidSplits(s[w..], i - w);
      assert s[w..][..i - w] == s[..i][w..] && s[w..][i - w..] == s[i..];
      assert s == s[..i] + s[i..];
      FirstRuneStays(s[..i], s[i..]);
    }
  }

  lemma OneRuneFurther(s: Text, rest: Text)
    requires s != [] && rest == s[Width(s)..]
    ensures Runes(s) == [RuneAt(s)] + Runes(rest)
    ensures Valid(s) <==> StartsRune(s) && Valid(rest)
  {
    hide StartsRune, Width, RuneAt;
  }

  lemma {:induction false} ValidConcat(a: Text, b: Text)
    requires Valid(a)
    ensures Valid(a + b) <==> Valid(b)
    ensures Runes(a + b) == Runes(a) + Runes(b)
  {
    hide StartsRune, Width, RuneAt, Valid, Runes;
    if a == [] {
      assert a + b == b;
      NothingReads();
    } else {
      var rest := a[Width(a)..];
      OneRuneFurther(a, rest);
      RuneStarts(a, b);
      assert (a + b)[Width(a)..] == rest + b;
      OneRuneFurther(a + b, rest + b);
      ValidConcat(rest, b);
      assert [RuneAt(a)] + (Runes(rest) + Runes(b)) == [RuneAt(a)] + Runes(rest) + Runes(b);
    }
  }

  lemma NothingReads()
    ensures Runes([]) == []
  {
  }

  lemma RuneStarts(a: Text, b: Text)
    requires StartsRune(a)
    ensures StartsRune(a + b) && Width(a + b) == Width(a) && RuneAt(a + b) == RuneAt(a)
  {
    FirstRuneStays(a, b);
  }

  lemma ValidStart(s: Text)
    requires Valid(s) && s != []
    ensures !IsCont(s[0])
  {
  }
}
