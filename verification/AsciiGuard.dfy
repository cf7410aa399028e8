/** The guard that keeps an edit from introducing non-ASCII characters (tools/asciiguard.go), and what a
    guarded replacement does to the whole file. */
module AsciiGuard {
  import opened Utf8
  import opened Wrappers

  /** How often a rune occurs in a text. */
  ghost function Uses(s: Text, r: Rune): nat {
    multiset(Runes(s))[r]
  }

  /** No non-ASCII rune occurs more often. */
  ghost predicate NoMore(before: Text, after: Text) {
    forall r {:trigger Uses(after, r)} :: r > 127 ==> Uses(after, r) <= Uses(before, r)
  }

  function Get(counts: map<Rune, nat>, r: Rune): nat {
    if r in counts then counts[r] else 0
  }

  lemma UsesStep(text: Text, i: nat, r: Rune)
    requires i < |text|
    ensures var first, next := RuneAt(text[i..]), i + Width(text[i..]);
            Uses(text[i..], r) == Uses(text[next..], r) + if r == first then 1 else 0
  {
    hide RuneAt, Width;
    assert text[i..][Width(text[i..])..] == text[i + Width(text[i..])..];
  }

  method NonAsciiCounts(text: Text) returns (counts: map<Rune, nat>)
    ensures forall r :: Get(counts, r) == if r > 127 then Uses(text, r) else 0
  {
    hide RuneAt, Width, Uses;
    counts := map[];
    var i := 0;
    assert text[0..] == text;
    while i < |text|
      invariant 0 <= i <= |text|
      invariant forall r :: Get(counts, r) == if r > 127 then Uses(text, r) - Uses(text[i..], r) else 0
    {
      var r, w := RuneAt(text[i..]), Width(text[i..]);
      forall q { UsesStep(text, i, q); }
      if r > 127 {
        counts := counts[r := Get(counts, r) + 1];
      }
      i := i + w;
    }
    NoUses(text[i..]);
  }

  lemma NoUses(s: Text)
    requires s == []
    ensures forall r :: Uses(s, r) == 0
  {
  }

  lemma Inhabited(s: set<Rune>)
    ensures s == {} || exists r :: r in s
  {
    if forall r :: r !in s {
      assert s == {};
    }
  }

  method ValidateAsciiOnly(oldText: Text, newText: Text) returns (ok: bool)
    ensures ok <==> NoMore(oldText, newText)
  {
    var oldCounts := NonAsciiCounts(oldText);
    var newCounts := NonAsciiCounts(newText);
    var introduced: set<Rune> := {};
    var rest: set<Rune> := newCounts.Keys;
    while rest != {}
      invariant rest <= newCounts.Keys
      invariant forall r :: r in introduced <==> r in newCounts && r !in rest && Get(newCounts, r) > Get(oldCounts, r)
    {
      Inhabited(rest);
      var r: Rune :| r in rest;
      rest := rest - {r};
      if newCounts[r] > Get(oldCounts, r) {
        introduced := introduced + {r};
      }
    }
    ok := introduced == {};
    if ok {
      forall r | r > 127 ensures Uses(newText, r) <= Uses(oldText, r) {
        assert r !in introduced && Get(newCounts, r) == Uses(newText, r);
      }
    } else {
      Inhabited(introduced);
      var r: Rune :| r in introduced;
      assert Get(newCounts, r) > Get(oldCounts, r);
      assert Uses(newText, r) > Uses(oldText, r);
    }
  }

  // ----- One occurrence -----

  lemma NoSeam(a: Text, b: Text)
    requires b == [] || !IsCont(b[0])
    ensures Runes(a + b) == Runes(a) + Runes(b)
  {
    var m := SeamReads(a, b);
    if m.Some? {
      InnerBytesContinue(m.value.head + m.value.tail, |m.value.head|);
    }
  }

  /** A text around a valid insert reads as its parts. */
  lemma InsertReads(pre: Text, mid: Text, post: Text)
    requires Valid(mid) && mid != []
    ensures Runes(pre + mid + post) == Runes(pre) + Runes(mid) + Runes(post)
  {
    hide Runes, Valid;
    assert !IsCont(mid[0]) by { ValidStart(mid); }
    assert pre + mid + post == pre + (mid + post);
    NoSeam(pre, mid + post);
    ValidConcat(mid, post);
  }

  /** The head of a seam reaches back to the last byte that can start a rune. */
  lemma SeamHead(a: Text, b: Text, x: Seam)
    requires Joins(a, b, x)
    ensures !IsCont(a[|a| - |x.head|])
    ensures forall i :: |a| - |x.head| < i < |a| ==> IsCont(a[i])
    ensures |x.tail| == SeqLen(a[|a| - |x.head|]) - |x.head|
  {
    var s := x.head + x.tail;
    forall i | |a| - |x.head| < i < |a| ensures IsCont(a[i]) {
      var k := i - (|a| - |x.head|);
      InnerBytesContinue(s, k);
      assert a[i] == x.head[k] == s[k];
    }
    assert a[|a| - |x.head|] == s[0];
  }

  lemma SeamUnique(a: Text, b: Text, x: Seam, y: Seam)
    requires Joins(a, b, x) && Joins(a, b, y)
    ensures x == y
  {
    SeamHead(a, b, x);
    SeamHead(a, b, y);
    assert |x.head| == |y.head|;
    assert x.head == a[|a| - |x.head|..] == y.head && x.before == a[..|a| - |x.head|] == y.before;
    assert x.tail == b[..|x.tail|] == y.tail && x.after == b[|x.tail|..] == y.after;
  }

  lemma LongRunesAreNotAscii(s: Text)
    requires StartsRune(s) && Width(s) >= 2
    ensures RuneAt(s) > 127
  {
  }

  /** Nothing new forms where a deletion brings two parts of the file together. */
  ghost predicate HarmlessSeam(pre: Text, old_: Text, post: Text) {
    forall x :: Joins(pre, post, x) ==>
                  RuneAt(x.head + x.tail) == REPLACEMENT || RuneAt(x.head + x.tail) in Runes(old_)
  }

  lemma {:induction false} ReplacementsUse(n: nat, r: Rune)
    ensures multiset(Replacements(n))[r] == if r == REPLACEMENT then n else 0
  {
    if n > 0 {
      ReplacementsUse(n - 1, r);
    }
  }

  /** Exactly when an accepted replacement keeps the law on the whole file, whatever its bytes. Only a
      deletion can break it: by forming a rune out of bytes that were not part of any. */
  lemma ReplacementLawIff(pre: Text, old_: Text, new_: Text, post: Text)
    requires Valid(old_) && Valid(new_) && old_ != [] && NoMore(old_, new_)
    ensures NoMore(pre + old_ + post, pre + new_ + post) <==> new_ != [] || HarmlessSeam(pre, old_, post)
  {
    hide Runes, Valid, StartsRune, RuneAt, Width, Joins;
    InsertReads(pre, old_, post);
    if new_ != [] {
      InsertReads(pre, new_, post);
      forall r | r > 127 ensures Uses(pre + new_ + post, r) <= Uses(pre + old_ + post, r) {
        assert Uses(new_, r) <= Uses(old_, r);
      }
    } else {
      assert pre + [] + post == pre + post;
      DeletionLawIff(pre, old_, post);
    }
  }

  lemma DeletionLawIff(pre: Text, old_: Text, post: Text)
    requires Valid(old_) && old_ != []
    ensures NoMore(pre + old_ + post, pre + post) <==> HarmlessSeam(pre, old_, post)
  {
    hide Runes, Valid, StartsRune, RuneAt, Width;
    InsertReads(pre, old_, post);
    var m := SeamReads(pre, post);
    if m.None? {
      NoJoin(pre, post);
      assert NoMore(pre + old_ + post, pre + post);
    } else {
      var x := m.value;
      forall y | Joins(pre, post, y) ensures y == x { SeamUnique(pre, post, x, y); }
      JoinCounts(pre, old_, post, x);
    }
  }

  /** A rune that forms across a seam replaces at least two replacement runes. */
  lemma NoJoin(pre: Text, post: Text)
    requires Runes(pre + post) == Runes(pre) + Runes(post)
    ensures forall x :: !Joins(pre, post, x)
  {
    forall x ensures !Joins(pre, post, x) {
      if Joins(pre, post, x) {
        JoinReads(pre, post, x);
        ReplacementsLength(|x.head|);
        ReplacementsLength(|x.tail|);
      }
    }
  }

  lemma {:induction false} ReplacementsLength(n: nat)
    ensures |Replacements(n)| == n
  {
    if n > 0 {
      ReplacementsLength(n - 1);
    }
  }

  lemma JoinCounts(pre: Text, old_: Text, post: Text, x: Seam)
    requires Reads(pre, post, Some(x))
    requires Runes(pre + old_ + post) == Runes(pre) + Runes(old_) + Runes(post)
    ensures NoMore(pre + old_ + post, pre + post) <==>
              RuneAt(x.head + x.tail) == REPLACEMENT || RuneAt(x.head + x.tail) in Runes(old_)
  {
    hide Runes, RuneAt, StartsRune, Width, Reads;
    assert Joins(pre, post, x) by { JoinsOf(pre, post, x); }
    var j := RuneAt(x.head + x.tail);
    LongRunesAreNotAscii(x.head + x.tail);
    forall r
      ensures Uses(pre + post, r) == Uses(x.before, r) + Uses(x.after, r) + (if r == j then 1 else 0)
      ensures Uses(pre + old_ + post, r) ==
                Uses(x.before, r) + Uses(x.after, r) + Uses(old_, r)
                + (if r == REPLACEMENT then |x.head| + |x.tail| else 0)
    {
      JoinUses(pre, old_, post, x, r);
    }
    assert j in Runes(old_) <==> Uses(old_, j) >= 1;
    assert NoMore(pre + old_ + post, pre + post) ==> Uses(pre + post, j) <= Uses(pre + old_ + post, j);
  }

  lemma JoinsOf(pre: Text, post: Text, x: Seam)
    requires Reads(pre, post, Some(x))
    ensures Joins(pre, post, x)
  {
  }

  lemma JoinUses(pre: Text, old_: Text, post: Text, x: Seam, r: Rune)
    requires Reads(pre, post, Some(x))
    requires Runes(pre + old_ + post) == Runes(pre) + Runes(old_) + Runes(post)
    ensures Uses(pre + post, r) ==
              Uses(x.before, r) + Uses(x.after, r) + (if r == RuneAt(x.head + x.tail) then 1 else 0)
    ensures Uses(pre + old_ + post, r) ==
              Uses(x.before, r) + Uses(x.after, r) + Uses(old_, r)
              + (if r == REPLACEMENT then |x.head| + |x.tail| else 0)
  {
    hide Runes, RuneAt, StartsRune, Width, Joins, Replacements;
    ReplacementsUse(|x.head|, r);
    ReplacementsUse(|x.tail|, r);
  }
}
