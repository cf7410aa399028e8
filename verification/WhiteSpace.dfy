/** White space as Go's unicode package defines it, and trimming strings of it. */
module WhiteSpace {
  predicate IsSpace(code: int) {
    || code in {9, 10, 11, 12, 13, 32, 0x85, 0xA0, 0x1680, 0x2028, 0x2029, 0x202F, 0x205F, 0x3000}
    || 0x2000 <= code <= 0x200A
  }

  function TrimLeft(s: string): string {
    if s != "" && IsSpace(s[0] as int) then TrimLeft(s[1..]) else s
  }

  function TrimRight(s: string): string {
    if s != "" && IsSpace(s[|s| - 1] as int) then TrimRight(s[..|s| - 1]) else s
  }

  function TrimSpace(s: string): string {
    TrimRight(TrimLeft(s))
  }

  lemma {:induction false} TrimRightDone(s: string)
    ensures TrimRight(TrimRight(s)) == TrimRight(s)
    ensures TrimRight(s) == "" || !IsSpace(TrimRight(s)[|TrimRight(s)| - 1] as int)
    ensures TrimRight(s) != "" ==> s != "" && TrimRight(s)[0] == s[0]
  {
    if s != "" && IsSpace(s[|s| - 1] as int) {
      TrimRightDone(s[..|s| - 1]);
    }
  }

  lemma {:induction false} TrimLeftDone(s: string)
    ensures TrimLeft(s) == "" || !IsSpace(TrimLeft(s)[0] as int)
  {
    if s != "" && IsSpace(s[0] as int) {
      TrimLeftDone(s[1..]);
    }
  }

  /** Trimming once more has no effect. */
  lemma TrimTwice(s: string)
    ensures TrimSpace(TrimSpace(s)) == TrimSpace(s)
  {
    TrimLeftDone(s);
    TrimRightDone(TrimLeft(s));
    assert TrimLeft(TrimSpace(s)) == TrimSpace(s);
  }

  predicate AllSpace(s: string) {
    forall i :: 0 <= i < |s| ==> IsSpace(s[i] as int)
  }

  lemma {:induction false} TrimLeftIs(s: string) returns (left: string)
    ensures s == left + TrimLeft(s) && AllSpace(left)
  {
    left := "";
    if s != "" && IsSpace(s[0] as int) {
      var rest := TrimLeftIs(s[1..]);
      left := [s[0]] + rest;
    }
  }

  lemma {:induction false} TrimRightIs(s: string) returns (right: string)
    ensures s == TrimRight(s) + right && AllSpace(right)
  {
    right := "";
    if s != "" && IsSpace(s[|s| - 1] as int) {
      var rest := TrimRightIs(s[..|s| - 1]);
      right := rest + [s[|s| - 1]];
    }
  }

  /** What is dropped on either side is white space, and none is left at either end. */
  lemma TrimSpaceIs(s: string) returns (left: string, right: string)
    ensures s == left + TrimSpace(s) + right && AllSpace(left) && AllSpace(right)
    ensures var t := TrimSpace(s); t != "" ==> !IsSpace(t[0] as int) && !IsSpace(t[|t| - 1] as int)
  {
    left := TrimLeftIs(s);
    right := TrimRightIs(TrimLeft(s));
    TrimLeftDone(s);
    TrimRightDone(TrimLeft(s));
  }

  /** Nothing is left exactly of white space. */
  lemma NothingLeftIff(s: string)
    ensures TrimSpace(s) == "" <==> AllSpace(s)
  {
    hide TrimSpace;
    var left, right := TrimSpaceIs(s);
    var t := TrimSpace(s);
    if t != "" {
      assert s[|left|] == t[0];
    }
  }
}
