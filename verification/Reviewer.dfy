/** The human reviewer at the terminal (tools/signoff.go, ReviewPlan): reading an answer and latching
    approval. */
module Reviewer {
  import opened WhiteSpace
  import opened Wrappers

  /** Drops trailing line-end characters only. */
  function TrimLineEnd(s: string): string {
    if s != "" && s[|s| - 1] in {'\r', '\n'} then TrimLineEnd(s[..|s| - 1]) else s
  }

  /** What is dropped are line-end characters, and none is left at the end. */
  lemma {:induction false} TrimLineEndIs(s: string) returns (rest: string)
    ensures s == TrimLineEnd(s) + rest && (forall c :: c in rest ==> c == '\n' || c == '\r')
    ensures TrimLineEnd(s) != "" ==> TrimLineEnd(s)[|TrimLineEnd(s)| - 1] !in ['\n', '\r']
  {
    rest := "";
    if s != "" && s[|s| - 1] in {'\r', '\n'} {
      var front := TrimLineEndIs(s[..|s| - 1]);
      rest := front + [s[|s| - 1]];
    }
  }

  /** Lower case, as far as it can reach the ASCII answer words: two non-ASCII letters fold into ASCII. */
  function LowerOf(c: char): char {
    if 'A' <= c <= 'Z' then c + 32 as char
    else if c == '\U{130}' then 'i'
    else if c == '\U{212A}' then 'k'
    else c
  }

  function Lower(s: string): string {
    if s == "" then ""
    else
      Lower(s[..|s| - 1]) + [LowerOf(s[|s| - 1])]
  }

  function JoinLines(lines: seq<string>): string {
    if lines == [] then ""
    else if |lines| == 1 then lines[0]
    else JoinLines(lines[..|lines| - 1]) + "\n" + lines[|lines| - 1]
  }

  const APPROVE_WORDS := {"yes", "y", "approve", "approved"}
  const REJECT_WORDS := {"no", "n", "reject", "rejected", "abort", "quit", "q"}

  /** One line of input; `atRest` tells that nothing more was buffered behind it. */
  datatype Line = Line(text: string, atRest: bool)

  /** What the reviewer will type: complete lines, then an unterminated rest before the end of input. */
  datatype Input = Input(lines: seq<Line>, tail: string)

  datatype Answer = Approved | Rejected | Feedback(text: string) | Failed

  function Classify(answer: string): Answer {
    if Lower(answer) in APPROVE_WORDS then Approved
    else if Lower(answer) in REJECT_WORDS then Rejected
    else Feedback(answer)
  }

  /** The letter, a small one, in either case. The dotted capital I and the Kelvin sign have small ASCII letters. */
  predicate SameLetter(c: char, letter: char) {
    || c == letter
    || ('A' <= c <= 'Z' && 'a' <= letter <= 'z' && c as int - 'A' as int == letter as int - 'a' as int)
    || (c == '\U{130}' && letter == 'i') || (c == '\U{212A}' && letter == 'k')
  }

  /** The answer is the word, whatever the case of its letters. */
  predicate Spells(answer: string, word: string) {
    |answer| == |word| && forall i :: 0 <= i < |word| ==> SameLetter(answer[i], word[i])
  }

  predicate SaysYes(answer: string) {
    Spells(answer, "yes") || Spells(answer, "y") || Spells(answer, "approve") || Spells(answer, "approved")
  }

  predicate SaysNo(answer: string) {
    || Spells(answer, "no") || Spells(answer, "n") || Spells(answer, "reject") || Spells(answer, "rejected")
    || Spells(answer, "abort") || Spells(answer, "quit") || Spells(answer, "q")
  }

  lemma {:induction false} LowerSpells(answer: string, word: string)
    requires forall i :: 0 <= i < |word| ==> 'a' <= word[i] <= 'z'
    ensures Lower(answer) == word <==> Spells(answer, word)
  {
    if answer != "" && word != "" {
      var front, w := answer[..|answer| - 1], word[..|word| - 1];
      LowerSpells(front, w);
      LastLetter(answer[|answer| - 1], word[|word| - 1]);
      assert answer == front + [answer[|answer| - 1]] && word == w + [word[|word| - 1]];
      SpellsOneMore(answer, word);
      AppendSame(Lower(front), w, Lower(answer)[|Lower(answer)| - 1], word[|word| - 1]);
    }
  }

  lemma LastLetter(c: char, letter: char)
    requires 'a' <= letter <= 'z'
    ensures LowerOf(c) == letter <==> SameLetter(c, letter)
  {
  }

  lemma SpellsOneMore(answer: string, word: string)
    requires answer != "" && word != ""
    ensures Spells(answer, word) <==>
              Spells(answer[..|answer| - 1], word[..|word| - 1]) && SameLetter(answer[|answer| - 1], word[|word| - 1])
  {
  }

  lemma AppendSame(a: string, b: string, c: char, d: char)
    ensures a + [c] == b + [d] <==> a == b && c == d
  {
    if a + [c] == b + [d] {
      assert (a + [c])[..|a|] == a && (b + [d])[..|b|] == b && (a + [c])[|a|] == c && (b + [d])[|b|] == d;
    }
  }

  /** Yes, y, approve and approved approve; no, n, reject, rejected, abort, quit and q reject; anything else is
      feedback. The case of the letters does not matter. */
  lemma AnswerMeans(answer: string)
    ensures Classify(answer) == Approved <==> SaysYes(answer)
    ensures Classify(answer) == Rejected <==> SaysNo(answer)
    ensures Classify(answer) == Feedback(answer) <==> !SaysYes(answer) && !SaysNo(answer)
  {
    hide Lower, Spells;
    LowerSpells(answer, "yes");
    LowerSpells(answer, "y");
    LowerSpells(answer, "approve");
    LowerSpells(answer, "approved");
    LowerSpells(answer, "no");
    LowerSpells(answer, "n");
    LowerSpells(answer, "reject");
    LowerSpells(answer, "rejected");
    LowerSpells(answer, "abort");
    LowerSpells(answer, "quit");
    LowerSpells(answer, "q");
  }

  /** Where the first non-blank line is; |lines| stands for the unterminated rest. */
  ghost predicate FirstAnswerAt(input: Input, k: nat) {
    && k <= |input.lines|
    && (forall j :: 0 <= j < k ==> TrimSpace(input.lines[j].text) == "")
    && (k < |input.lines| ==> TrimSpace(input.lines[k].text) != "")
  }

  function AnswerAt(input: Input, k: nat): string
    requires k <= |input.lines|
  {
    TrimSpace(if k < |input.lines| then input.lines[k].text else input.tail)
  }

  /** What is left of the input once it was read up to line k and that line with it. */
  function After(input: Input, k: nat): Input {
    if k < |input.lines| then Input(input.lines[k + 1..], input.tail) else Input([], "")
  }

  /** The rest of a feedback reply ends at an empty line typed at rest, or with the input. */
  ghost predicate BodyEndsAt(lines: seq<Line>, k: nat) {
    && k <= |lines|
    && (forall j :: 0 <= j < k ==> !(TrimLineEnd(lines[j].text) == "" && lines[j].atRest))
    && (k < |lines| ==> TrimLineEnd(lines[k].text) == "" && lines[k].atRest)
  }

  function BodyLines(lines: seq<Line>): seq<string> {
    if lines == [] then [] else BodyLines(lines[..|lines| - 1]) + [TrimLineEnd(lines[|lines| - 1].text)]
  }

  /** An unterminated last line counts when the reply ran into the end of input. */
  function TailLines(input: Input, k: nat): seq<string> {
    if k == |input.lines| && TrimLineEnd(input.tail) != "" then [TrimLineEnd(input.tail)] else []
  }

  /** The whole of a feedback reply that starts with a line and ends at line k of the input. */
  function Body(first: string, input: Input, k: nat): string
    requires k <= |input.lines|
  {
    TrimSpace(JoinLines([first] + BodyLines(input.lines[..k]) + TailLines(input, k)))
  }

  /** Each line behind a newline, without the line-end characters it had. */
  function Behind(lines: seq<Line>): string {
    if lines == [] then "" else "\n" + TrimLineEnd(lines[0].text) + Behind(lines[1..])
  }

  predicate OnlyLineEnds(s: string) {
    forall i :: 0 <= i < |s| ==> s[i] == '\n' || s[i] == '\r'
  }

  lemma {:induction false} JoinBehind(first: string, texts: seq<string>, last: string)
    ensures JoinLines([first] + texts + [last]) == JoinLines([first] + texts) + "\n" + last
  {
    var all := [first] + texts + [last];
    assert all[..|all| - 1] == [first] + texts && all[|all| - 1] == last;
  }

  lemma {:induction false} BehindLast(lines: seq<Line>)
    requires lines != []
    ensures Behind(lines) == Behind(lines[..|lines| - 1]) + "\n" + TrimLineEnd(lines[|lines| - 1].text)
  {
    hide TrimLineEnd;
    if |lines| == 1 {
      assert Behind(lines[1..]) == "" && Behind(lines[..0]) == "";
      assert "\n" + TrimLineEnd(lines[0].text) + "" == "" + "\n" + TrimLineEnd(lines[0].text);
    } else {
      BehindLast(lines[1..]);
      assert lines[1..][..|lines| - 2] == lines[..|lines| - 1][1..];
    }
  }

  lemma {:induction false} JoinIsBehind(first: string, lines: seq<Line>)
    ensures JoinLines([first] + BodyLines(lines)) == first + Behind(lines)
  {
    hide TrimLineEnd;
    if lines == [] {
      assert [first] + [] == [first] && first + "" == first;
    } else {
      var front, last := lines[..|lines| - 1], TrimLineEnd(lines[|lines| - 1].text);
      JoinIsBehind(first, front);
      JoinBehind(first, BodyLines(front), last);
      assert [first] + BodyLines(lines) == [first] + BodyLines(front) + [last];
      BehindLast(lines);
      assert first + Behind(front) + "\n" + last == first + (Behind(front) + "\n" + last);
    }
  }

  lemma {:induction false} BlankTail(s: string)
    ensures TrimLineEnd(s) == "" <==> OnlyLineEnds(s)
  {
    if s != "" && s[|s| - 1] in {'\r', '\n'} {
      BlankTail(s[..|s| - 1]);
    } else if s != "" {
      assert !OnlyLineEnds(s) by { assert s[|s| - 1] !in {'\r', '\n'}; }
    }
  }

  /** A feedback is its first line and those behind it, with an unterminated last one unless that is blank, put
      together with newlines and trimmed. */
  lemma BodyIs(first: string, input: Input, k: nat)
    requires k <= |input.lines|
    ensures Body(first, input, k) ==
              TrimSpace(first + Behind(input.lines[..k])
                        + if k == |input.lines| && !OnlyLineEnds(input.tail)
                          then "\n" + TrimLineEnd(input.tail) else "")
  {
    hide TrimSpace, TrimLineEnd, JoinLines, BodyLines, Behind, OnlyLineEnds;
    var lines, tail := input.lines[..k], TrimLineEnd(input.tail);
    JoinIsBehind(first, lines);
    BlankTail(input.tail);
    if k == |input.lines| && tail != "" {
      JoinBehind(first, BodyLines(lines), tail);
      assert first + Behind(lines) + "\n" + tail == first + Behind(lines) + ("\n" + tail);
    } else {
      assert [first] + BodyLines(lines) + [] == [first] + BodyLines(lines);
      assert first + Behind(lines) + "" == first + Behind(lines);
    }
  }

  /** The reviewer's verdict on the plan shown now, and the input left for the next one: the first
      non-blank line decides, and feedback goes on up to an empty line. */
  ghost predicate Decides(input: Input, a: Answer, rest: Input) {
    exists k: nat :: FirstAnswerAt(input, k) && DecidesAt(input, k, a, rest)
  }

  ghost predicate DecidesAt(input: Input, k: nat, a: Answer, rest: Input)
    requires k <= |input.lines|
  {
    if AnswerAt(input, k) == "" then a == Failed && rest == Input([], "")
    else
      var c := Classify(AnswerAt(input, k));
      if c.Feedback? then FeedbackEnds(c.text, After(input, k), a, rest) else a == c && rest == After(input, k)
  }

  ghost predicate FeedbackEnds(first: string, input: Input, a: Answer, rest: Input) {
    exists k: nat :: BodyEndsAt(input.lines, k) && a == Feedback(Body(first, input, k)) && rest == After(input, k)
  }

  /** The input determines the verdict, the text of a feedback, and what is left to read. */
  lemma AnswerIsUnique(input: Input, a: Answer, b: Answer, restA: Input, restB: Input)
    requires Decides(input, a, restA) && Decides(input, b, restB)
    ensures a == b && restA == restB
  {
    hide DecidesAt, AnswerAt;
    var j: nat :| FirstAnswerAt(input, j) && DecidesAt(input, j, a, restA);
    var k: nat :| FirstAnswerAt(input, k) && DecidesAt(input, k, b, restB);
    assert j == k;
    AnswerAtIsUnique(input, k, a, b, restA, restB);
  }

  lemma AnswerAtIsUnique(input: Input, k: nat, a: Answer, b: Answer, restA: Input, restB: Input)
    requires k <= |input.lines| && DecidesAt(input, k, a, restA) && DecidesAt(input, k, b, restB)
    ensures a == b && restA == restB
  {
    hide FeedbackEnds, AnswerAt, After;
    var c := Classify(AnswerAt(input, k));
    if AnswerAt(input, k) != "" && c.Feedback? {
      FeedbackIsUnique(c.text, After(input, k), a, b, restA, restB);
    }
  }

  lemma FeedbackIsUnique(first: string, input: Input, a: Answer, b: Answer, restA: Input, restB: Input)
    requires FeedbackEnds(first, input, a, restA) && FeedbackEnds(first, input, b, restB)
    ensures a == b && restA == restB
  {
    hide Body, After, TrimLineEnd;
    var j: nat :| BodyEndsAt(input.lines, j) && a == Feedback(Body(first, input, j)) && restA == After(input, j);
    var k: nat :| BodyEndsAt(input.lines, k) && b == Feedback(Body(first, input, k)) && restB == After(input, k);
    assert j == k;
  }

  /** What the first non-blank line of the input says. */
  ghost predicate ReadAs(input: Input, a: Answer) {
    exists k: nat :: FirstAnswerAt(input, k) && AnswersAs(AnswerAt(input, k), a)
  }

  predicate AnswersAs(answer: string, a: Answer) {
    && (a == Failed <==> answer == "")
    && (a == Approved <==> SaysYes(answer))
    && (a == Rejected <==> SaysNo(answer))
    && (a.Feedback? <==> answer != "" && !SaysYes(answer) && !SaysNo(answer))
  }

  lemma DecidedAsRead(input: Input, a: Answer, rest: Input)
    requires Decides(input, a, rest)
    ensures ReadAs(input, a)
  {
    hide Classify, FeedbackEnds, SaysYes, SaysNo;
    var k: nat :| FirstAnswerAt(input, k) && DecidesAt(input, k, a, rest);
    AnswerMeans(AnswerAt(input, k));
    NothingSaid();
    assert AnswersAs(AnswerAt(input, k), a) by {
      if AnswerAt(input, k) != "" && Classify(AnswerAt(input, k)).Feedback? {
        IsFeedback(Classify(AnswerAt(input, k)).text, After(input, k), a, rest);
        ClassifiedWhole(AnswerAt(input, k));
      }
    }
  }

  lemma NothingSaid()
    ensures !SaysYes("") && !SaysNo("")
  {
  }

  lemma ClassifiedWhole(answer: string)
    ensures Classify(answer).Feedback? ==> Classify(answer) == Feedback(answer)
    ensures Classify(answer) != Failed
  {
  }

  lemma IsFeedback(first: string, input: Input, a: Answer, rest: Input)
    requires FeedbackEnds(first, input, a, rest)
    ensures a.Feedback?
  {
  }

  class SignOffRuntime {
    const isTTY: bool
    const hasInput: bool
    var approved: bool
    var input: Input
    // Every verdict reached so far, for the audit trail.
    var reviews: seq<Answer>

    constructor (isTTY: bool, hasInput: bool, input: Input)
      ensures this.isTTY == isTTY && this.hasInput == hasInput && this.input == input
      ensures !approved && reviews == []
    {
      this.isTTY, this.hasInput, this.input := isTTY, hasInput, input;
      approved, reviews := false, [];
    }

    /** Reads one line up to its newline; at the end of input, what is left and an error. */
    method ReadLine() returns (text: string, atRest: bool, err: bool)
      modifies this`input
      ensures err <==> old(input).lines == []
      ensures !err ==> text == old(input).lines[0].text && atRest == old(input).lines[0].atRest
                       && input == old(input).(lines := old(input).lines[1..])
      ensures err ==> text == old(input).tail && input == old(input).(tail := "")
    {
      if input.lines == [] {
        text, atRest, err := input.tail, true, true;
        input := input.(tail := "");
      } else {
        text, atRest, err := input.lines[0].text, input.lines[0].atRest, false;
        input := input.(lines := input.lines[1..]);
      }
    }

    /** Re-prompts on blank lines until an answer or the end of input. */
    method PromptSignOff() returns (answer: Option<string>, ghost k: nat)
      modifies this`input
      ensures FirstAnswerAt(old(input), k)
      ensures answer == if AnswerAt(old(input), k) == "" then None else Some(AnswerAt(old(input), k))
      ensures input == After(old(input), k)
    {
      k := 0;
      while true
        invariant k <= |old(input).lines| && input == old(input).(lines := old(input).lines[k..])
        invariant forall j :: 0 <= j < k ==> TrimSpace(old(input).lines[j].text) == ""
        decreases |old(input).lines| - k
      {
        var text, _, err := ReadLine();
        var trimmed := TrimSpace(text);
        if trimmed != "" {
          return Some(trimmed), k;
        }
        if err {
          return None, k;
        }
        k := k + 1;
      }
    }

    /** Collects a feedback reply, and reads no further than its end. */
    method ReadFeedbackBody(first: string) returns (feedback: string, ghost k: nat)
      modifies this`input
      ensures BodyEndsAt(old(input).lines, k)
      ensures feedback == Body(first, old(input), k) && input == After(old(input), k)
    {
      k := 0;
      var lines := [first];
      assert old(input).lines[..0] == [];
      while true
        invariant k <= |old(input).lines| && input == old(input).(lines := old(input).lines[k..])
        invariant lines == [first] + BodyLines(old(input).lines[..k])
        invariant forall j :: 0 <= j < k ==>
                    !(TrimLineEnd(old(input).lines[j].text) == "" && old(input).lines[j].atRest)
        decreases |old(input).lines| - k
      {
        var text, atRest, err := ReadLine();
        var trimmed := TrimLineEnd(text);
        if trimmed == "" && !err && atRest {
          break;
        }
        ghost var before := lines;
        if trimmed != "" || !err {
          lines := lines + [trimmed];
        }
        if err {
          assert lines == before + TailLines(old(input), k);
          return TrimSpace(JoinLines(lines)), k;
        }
        assert old(input).lines[..k + 1][..k] == old(input).lines[..k];
        k := k + 1;
      }
      assert lines == lines + TailLines(old(input), k);
      feedback := TrimSpace(JoinLines(lines));
    }

    /** Shows a plan and classifies the answer. Approval latches; nothing else changes it. */
    method ReviewPlan() returns (a: Answer)
      modifies this
      ensures reviews == old(reviews) + [a]
      ensures approved == (old(approved) || a == Approved)
      ensures if !isTTY || !hasInput then a == Failed && input == old(input)
              else Decides(old(input), a, input) && ReadAs(old(input), a)
    {
      hide Body, Classify, ReadAs;
      if !isTTY || !hasInput {
        a := Failed;
      } else {
        var answer, k := PromptSignOff();
        if answer.None? {
          a := Failed;
        } else {
          a := Classify(answer.value);
          ClassifiedWhole(answer.value);
          if a == Approved {
            approved := true;
          } else if a.Feedback? {
            var feedback, _ := ReadFeedbackBody(answer.value);
            a := Feedback(feedback);
          }
        }
        assert FirstAnswerAt(old(input), k) && DecidesAt(old(input), k, a, input);
        DecidedAsRead(old(input), a, input);
      }
      reviews := reviews + [a];
    }
  }
}
