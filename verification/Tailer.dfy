/** The incremental reader of a session's event log (watch/tailer.go): what it shows after any sequence
    of appends and refreshes, against one pass over the whole file. */
module Tailer {
  import opened Utf8
  import opened Wrappers

  const CARRIAGE_RETURN: Byte := 13

  /** The scanner's buffer: a line that fills it is too long to be read. */
  const MAX_LINE: nat := 0x400000

  datatype Payload = Payload(name: string, error: string, message: string)
  datatype Kind = Iteration | ToolCall | Response | ErrorEvent | LargeResult | RunEnd | OtherKind
  datatype Event = Event(ts: int, kind: Kind, payload: Option<Payload>)

  datatype Counts = Counts(iterations: nat, toolCalls: nat, responses: nat, errors: nat, largeResults: nat)
  datatype State = State(counts: Counts, lastTool: string, lastError: string, lastEventAt: int, events: seq<Event>)

  const FRESH := State(Counts(0, 0, 0, 0, 0), "", "", 0, [])

  // ----- One event -----

  function CountedBy(c: Counts, kind: Kind): Counts {
    match kind
    case Iteration => c.(iterations := c.iterations + 1)
    case ToolCall => c.(toolCalls := c.toolCalls + 1)
    case Response => c.(responses := c.responses + 1)
    case ErrorEvent => c.(errors := c.errors + 1)
    case LargeResult => c.(largeResults := c.largeResults + 1)
    case _ => c
  }

  function ErrorOf(before: string, ev: Event): string {
    if ev.payload.None? then before
    else
      var p := ev.payload.value;
      if ev.kind == ErrorEvent then (if p.error != "" then p.error else if p.message != "" then p.message else before)
      else if ev.kind == RunEnd && p.error != "" then p.error
      else before
  }

  /** The last `cap` of them; 0 means all. */
  function LastOf<T>(s: seq<T>, cap: nat): seq<T> {
    if cap > 0 && |s| > cap then s[|s| - cap..] else s
  }

  function Apply(cap: nat, s: State, ev: Event): State {
    State(CountedBy(s.counts, ev.kind),
          if ev.kind == ToolCall && ev.payload.Some? then ev.payload.value.name else s.lastTool,
          ErrorOf(s.lastError, ev), ev.ts, LastOf(s.events + [ev], cap))
  }

  // ----- Lines -----

  function DropCR(line: Text): Text {
    if line != [] && line[|line| - 1] == CARRIAGE_RETURN then line[..|line| - 1] else line
  }

  /** What the scanner yields: every line up to the first that is too long, the last one even if no
      newline ends it. */
  function Scan(data: Text): seq<Text> {
    var i := LineEnd(data);
    if data == [] || i >= MAX_LINE then []
    else [DropCR(data[..i])] + if i < |data| then Scan(data[i + 1..]) else []
  }

  /** The bytes the reader takes its lines to have used, one for the newline of each. */
  function BytesOf(lines: seq<Text>): nat {
    if lines == [] then 0 else BytesOf(lines[..|lines| - 1]) + |lines[|lines| - 1]| + 1
  }

  type Decoder = Text -> Option<Event>

  /** One pass over a list of lines; lines that decode to nothing are skipped. */
  function Fold(decode: Decoder, cap: nat, s: State, lines: seq<Text>): State {
    if lines == [] then s
    else
      var before, ev := Fold(decode, cap, s, lines[..|lines| - 1]), decode(lines[|lines| - 1]);
      if ev.Some? then Apply(cap, before, ev.value) else before
  }

  // ----- The reader -----

  datatype Reader = Reader(offset: nat, state: State)

  const UNREAD := Reader(0, FRESH)

  function Unseen(file: Text, offset: nat): Text {
    if offset <= |file| then file[offset..] else []
  }

  function RefreshOf(decode: Decoder, cap: nat, r: Reader, file: Text): Reader {
    var lines := Scan(Unseen(file, r.offset));
    Reader(r.offset + BytesOf(lines), Fold(decode, cap, r.state, lines))
  }

  class EventTailer {
    const decode: Decoder
    const cap: nat
    var offset: nat
    var counts: Counts
    var lastTool: string
    var lastError: string
    var lastEventAt: int
    var events: seq<Event>

    ghost function Model(): Reader
      reads this
    {
      Reader(offset, State(counts, lastTool, lastError, lastEventAt, events))
    }

    constructor (decode: Decoder, cap: nat)
      ensures Model() == UNREAD && this.decode == decode && this.cap == cap
    {
      this.decode, this.cap := decode, cap;
      offset, counts, lastTool, lastError, lastEventAt, events := 0, Counts(0, 0, 0, 0, 0), "", "", 0, [];
    }

    method Reset()
      modifies this
      ensures Model() == UNREAD
    {
      offset, counts, lastTool, lastError, lastEventAt, events := 0, Counts(0, 0, 0, 0, 0), "", "", 0, [];
    }

    method ApplyEvent(ev: Event)
      modifies this
      ensures Model() == Reader(old(offset), Apply(cap, old(Model()).state, ev))
    {
      hide LastOf;
      lastEventAt := ev.ts;
      match ev.kind {
        case Iteration => counts := counts.(iterations := counts.iterations + 1);
        case ToolCall =>
          counts := counts.(toolCalls := counts.toolCalls + 1);
          if ev.payload.Some? {
            lastTool := ev.payload.value.name;
          }
        case Response => counts := counts.(responses := counts.responses + 1);
        case ErrorEvent =>
          counts := counts.(errors := counts.errors + 1);
          if ev.payload.Some? {
            if ev.payload.value.error != "" {
              lastError := ev.payload.value.error;
            } else if ev.payload.value.message != "" {
              lastError := ev.payload.value.message;
            }
          }
        case LargeResult => counts := counts.(largeResults := counts.largeResults + 1);
        case RunEnd =>
          if ev.payload.Some? && ev.payload.value.error != "" {
            lastError := ev.payload.value.error;
          }
        case OtherKind =>
      }
      Keep(ev);
    }

    method Keep(ev: Event)
      modifies this`events
      ensures events == LastOf(old(events) + [ev], cap)
    {
      events := events + [ev];
      if cap > 0 && |events| > cap {
        var drop := |events| - cap;
        events := events[drop..];
      }
    }

    method RefreshEvents(file: Text)
      modifies this
      ensures Model() == RefreshOf(decode, cap, old(Model()), file)
    {
      hide Scan, Apply;
      var lines := Scan(if offset <= |file| then file[offset..] else []);
      var bytesRead := 0;
      ghost var start := Model();
      for i := 0 to |lines|
        invariant bytesRead == BytesOf(lines[..i])
        invariant Model() == Reader(start.offset, Fold(decode, cap, start.state, lines[..i]))
      {
        assert lines[..i + 1][..i] == lines[..i];
        bytesRead := bytesRead + |lines[i]| + 1;
        var ev := decode(lines[i]);
        if ev.Some? {
          ApplyEvent(ev.value);
        }
      }
      assert lines[..|lines|] == lines;
      offset := offset + bytesRead;
    }
  }

  // ----- Whole lines -----

  /** Complete lines, none too long and none ending in a carriage return. */
  predicate WholeLines(data: Text) {
    data == [] ||
    (var i := LineEnd(data);
     i < |data| && PlainLine(data[..i]) && WholeLines(data[i + 1..]))
  }

  predicate PlainLine(p: Text) {
    10 !in p && |p| < 4_194_304 && (p == [] || p[|p| - 1] != 13)
  }

  lemma BytesFirst(line: Text, rest: seq<Text>)
    ensures BytesOf([line] + rest) == |line| + 1 + BytesOf(rest)
    decreases |rest|
  {
    if rest == [] {
      assert [line] + rest == [line] && [line][..0] == [];
    } else {
      assert ([line] + rest)[..|rest|] == [line] + rest[..|rest| - 1];
      BytesFirst(line, rest[..|rest| - 1]);
    }
  }

  lemma FirstOf(front: Text, rest: Text)
    requires NEWLINE !in front && |front| < MAX_LINE
    ensures var s := front + [NEWLINE] + rest;
            && LineEnd(s) == |front| && s[..|front|] == front && s[|front| + 1..] == rest
            && Scan(s) == [DropCR(front)] + Scan(rest)
  {
    hide DropCR, LineEnd;
    SplitAtNewline(front, rest);
  }

  lemma PlainStays(p: Text)
    requires PlainLine(p)
    ensures DropCR(p) == p
  {
  }

  lemma FirstWhole(a: Text) returns (front: Text, rest: Text)
    requires WholeLines(a) && a != []
    ensures a == front + [NEWLINE] + rest && PlainLine(front) && WholeLines(rest)
  {
    hide DropCR, LineEnd;
    var i := LineEnd(a);
    front, rest := a[..i], a[i + 1..];
  }

  lemma WholeFirst(front: Text, rest: Text)
    requires PlainLine(front)
    ensures WholeLines(front + [NEWLINE] + rest) <==> WholeLines(rest)
  {
    hide DropCR, LineEnd, Scan;
    FirstOf(front, rest);
  }

  lemma {:induction false} ScanConcat(a: Text, b: Text)
    requires WholeLines(a)
    ensures Scan(a + b) == Scan(a) + Scan(b)
    ensures BytesOf(Scan(a)) == |a|
  {
    hide DropCR, LineEnd, Scan, WholeLines;
    NothingIsWhole();
    if a == [] {
      assert a + b == b && [] + Scan(b) == Scan(b);
    } else {
      var front, rest := FirstWhole(a);
      assert a + b == front + [NEWLINE] + (rest + b);
      FirstOf(front, rest);
      FirstOf(front, rest + b);
      ScanConcat(rest, b);
      BytesFirst(front, Scan(rest));
      PlainStays(front);
      assert [front] + (Scan(rest) + Scan(b)) == ([front] + Scan(rest)) + Scan(b);
    }
  }

  lemma {:induction false} FoldConcat(decode: Decoder, cap: nat, s: State, a: seq<Text>, b: seq<Text>)
    ensures Fold(decode, cap, s, a + b) == Fold(decode, cap, Fold(decode, cap, s, a), b)
  {
    hide Apply;
    if b == [] {
      assert a + b == a;
    } else {
      assert (a + b)[..|a + b| - 1] == a + b[..|b| - 1];
      FoldConcat(decode, cap, s, a, b[..|b| - 1]);
    }
  }

  // ----- Any interleaving of appends and refreshes -----

  datatype Step = Append(chunk: Text) | Refresh

  datatype World = World(file: Text, reader: Reader)

  function RunOf(decode: Decoder, cap: nat, steps: seq<Step>): World {
    if steps == [] then World([], UNREAD)
    else
      var w := RunOf(decode, cap, steps[..|steps| - 1]);
      match steps[|steps| - 1]
      case Append(chunk) => w.(file := w.file + chunk)
      case Refresh => w.(reader := RefreshOf(decode, cap, w.reader, w.file))
  }

  ghost predicate AppendsWholeLines(steps: seq<Step>) {
    forall st :: st in steps && st.Append? ==> WholeLines(st.chunk)
  }

  /** The reader has seen whole lines of the file, each once. */
  ghost predicate InStep(decode: Decoder, cap: nat, w: World) {
    && w.reader.offset <= |w.file| && WholeLines(w.file[..w.reader.offset]) && WholeLines(w.file[w.reader.offset..])
    && w.reader.state == Fold(decode, cap, FRESH, Scan(w.file[..w.reader.offset]))
  }

  lemma {:induction false} WholeConcat(a: Text, b: Text)
    requires WholeLines(a) && WholeLines(b)
    ensures WholeLines(a + b)
    decreases |a|
  {
    hide DropCR, LineEnd, WholeLines;
    if a == [] {
      assert a + b == b;
    } else {
      var front, rest := FirstWhole(a);
      assert a + b == front + [NEWLINE] + (rest + b);
      WholeConcat(rest, b);
      WholeFirst(front, rest + b);
    }
  }

  lemma RefreshCatchesUp(decode: Decoder, cap: nat, w: World)
    requires InStep(decode, cap, w)
    ensures var r := RefreshOf(decode, cap, w.reader, w.file);
            && r.offset == |w.file| && r.state == Fold(decode, cap, FRESH, Scan(w.file))
            && InStep(decode, cap, World(w.file, r))
  {
    hide Scan, Fold, WholeLines;
    var seen, unseen := w.file[..w.reader.offset], w.file[w.reader.offset..];
    assert w.file == seen + unseen;
    ScanConcat(seen, unseen);
    assert BytesOf(Scan(unseen)) == |unseen| by {
      ScanConcat(unseen, []);
    }
    FoldConcat(decode, cap, FRESH, Scan(seen), Scan(unseen));
    WholeConcat(seen, unseen);
    assert w.file[..|w.file|] == w.file && w.file[|w.file|..] == [];
    NothingIsWhole();
  }

  lemma NothingIsWhole()
    ensures WholeLines([]) && Scan([]) == []
  {
  }

  lemma {:induction false} RunInStep(decode: Decoder, cap: nat, steps: seq<Step>)
    requires AppendsWholeLines(steps)
    ensures InStep(decode, cap, RunOf(decode, cap, steps))
  {
    hide Scan, Fold, WholeLines, RefreshOf;
    if steps == [] {
      NothingIsWhole();
      NothingFolds(decode, cap);
    } else {
      var front, last := steps[..|steps| - 1], steps[|steps| - 1];
      var w := RunOf(decode, cap, front);
      RunInStep(decode, cap, front);
      match last {
        case Append(chunk) =>
          assert last in steps;
          var seen := w.file[..w.reader.offset];
          assert (w.file + chunk)[..w.reader.offset] == seen;
          assert (w.file + chunk)[w.reader.offset..] == w.file[w.reader.offset..] + chunk;
          WholeConcat(w.file[w.reader.offset..], chunk);
        case Refresh => RefreshCatchesUp(decode, cap, w);
      }
    }
  }

  lemma NothingFolds(decode: Decoder, cap: nat)
    ensures Fold(decode, cap, FRESH, []) == FRESH
  {
  }

  /** For any interleaving of whole-line appends and refreshes, a refresh leaves exactly what one pass
      over the whole file gives, with the offset at its end. */
  lemma RefreshEqualsOnePass(decode: Decoder, cap: nat, steps: seq<Step>)
    requires AppendsWholeLines(steps)
    ensures var file := RunOf(decode, cap, steps).file;
            RunOf(decode, cap, steps + [Refresh]) == World(file, Reader(|file|, Fold(decode, cap, FRESH, Scan(file))))
  {
    hide Scan, Fold, WholeLines, RefreshOf;
    RunInStep(decode, cap, steps);
    RefreshCatchesUp(decode, cap, RunOf(decode, cap, steps));
    assert (steps + [Refresh])[..|steps|] == steps;
  }

  // ----- What one pass gives -----

  function Decoded(decode: Decoder, lines: seq<Text>): seq<Event> {
    if lines == [] then []
    else
      var front, ev := Decoded(decode, lines[..|lines| - 1]), decode(lines[|lines| - 1]);
      if ev.Some? then front + [ev.value] else front
  }

  /** The events kept are the last `cap` of all, and capping changes nothing else. */
  lemma {:induction false} KeptEvents(decode: Decoder, cap: nat, lines: seq<Text>)
    ensures Fold(decode, cap, FRESH, lines) ==
              Fold(decode, 0, FRESH, lines).(events := LastOf(Decoded(decode, lines), cap))
    ensures Fold(decode, 0, FRESH, lines).events == Decoded(decode, lines)
  {
    hide LastOf, CountedBy, ErrorOf;
    LastOfNone<Event>(cap);
    if lines != [] {
      var front := lines[..|lines| - 1];
      KeptEvents(decode, cap, front);
      var ev := decode(lines[|lines| - 1]);
      if ev.Some? {
        LastOfAppend(Decoded(decode, front), ev.value, cap);
        LastOfAll(Decoded(decode, lines));
      }
    }
  }

  lemma LastOfIs<T>(s: seq<T>, cap: nat)
    ensures LastOf(s, cap) == if cap == 0 || |s| < cap then s else s[|s| - cap..]
  {
  }

  /** The events kept are all of them without a cap, and otherwise at most that many from the end. */
  lemma LastAreKept(decode: Decoder, cap: nat, lines: seq<Text>)
    ensures var all := Decoded(decode, lines);
            Fold(decode, cap, FRESH, lines).events == if cap == 0 || |all| < cap then all else all[|all| - cap..]
  {
    hide LastOf, Fold, Decoded;
    KeptEvents(decode, cap, lines);
    LastOfIs(Decoded(decode, lines), cap);
  }

  lemma LastOfAll<T>(s: seq<T>)
    ensures LastOf(s, 0) == s
  {
  }

  lemma LastOfNone<T>(cap: nat)
    ensures LastOf<T>([], cap) == []
  {
  }

  lemma LastOfAppend<T>(all: seq<T>, x: T, cap: nat)
    ensures LastOf(LastOf(all, cap) + [x], cap) == LastOf(all + [x], cap)
  {
  }

  function HowMany(events: seq<Event>, kind: Kind): nat {
    if events == [] then 0
    else HowMany(events[..|events| - 1], kind) + if events[|events| - 1].kind == kind then 1 else 0
  }

  /** Each counter is the number of events of its kind. */
  predicate Totals(c: Counts, all: seq<Event>) {
    && c.iterations == HowMany(all, Iteration) && c.toolCalls == HowMany(all, ToolCall)
    && c.responses == HowMany(all, Response) && c.errors == HowMany(all, ErrorEvent)
    && c.largeResults == HowMany(all, LargeResult)
  }

  lemma TotalsStep(c: Counts, all: seq<Event>, ev: Event)
    requires Totals(c, all)
    ensures Totals(CountedBy(c, ev.kind), all + [ev])
  {
    assert (all + [ev])[..|all|] == all;
  }

  lemma NoTotals()
    ensures Totals(FRESH.counts, [])
  {
  }

  lemma {:induction false} CountsAreTotals(decode: Decoder, cap: nat, lines: seq<Text>)
    ensures Totals(Fold(decode, cap, FRESH, lines).counts, Decoded(decode, lines))
  {
    hide LastOf, ErrorOf, Totals, CountedBy;
    NoTotals();
    if lines != [] {
      var front, ev := lines[..|lines| - 1], decode(lines[|lines| - 1]);
      CountsAreTotals(decode, cap, front);
      if ev.Some? {
        TotalsStep(Fold(decode, cap, FRESH, front).counts, Decoded(decode, front), ev.value);
      }
    }
  }

  // ----- Lines that are too long -----

  /** A line of four megabytes or more is never read, nor is anything behind it: the reader stays where it is. */
  lemma LongLineBlocks(decode: Decoder, cap: nat, r: Reader, file: Text)
    requires r.offset <= |file| && LineEnd(file[r.offset..]) >= 4_194_304
    ensures RefreshOf(decode, cap, r, file) == r
  {
  }

  // ----- The latest tool and error -----

  /** A tool call that says which tool it calls. */
  predicate NamesTool(ev: Event, name: string) {
    ev.kind == ToolCall && ev.payload.Some? && name == ev.payload.value.name
  }

  /** An error event that has an error or else a message, or the end of a run with an error. */
  predicate TellsError(ev: Event, text: string) {
    && ev.payload.Some? && text != ""
    && var p := ev.payload.value;
       || ((ev.kind == ErrorEvent || ev.kind == RunEnd) && text == p.error)
       || (ev.kind == ErrorEvent && p.error == "" && text == p.message)
  }

  /** The value is what the last event to say anything says, or nothing if none does. */
  ghost predicate Latest(all: seq<Event>, says: (Event, string) -> bool, value: string) {
    || (value == "" && forall i, v :: 0 <= i < |all| ==> !says(all[i], v))
    || exists i :: SaidLastBy(all, says, value, i)
  }

  ghost predicate SaidLastBy(all: seq<Event>, says: (Event, string) -> bool, value: string, i: int) {
    0 <= i < |all| && says(all[i], value) && forall j, v :: i < j < |all| ==> !says(all[j], v)
  }

  lemma LatestOneMore(all: seq<Event>, says: (Event, string) -> bool, before: string, ev: Event, after: string)
    requires Latest(all, says, before)
    requires says(ev, after) || (after == before && forall v :: !says(ev, v))
    ensures Latest(all + [ev], says, after)
  {
    var more := all + [ev];
    assert forall j :: 0 <= j < |all| ==> more[j] == all[j];
    if says(ev, after) {
      assert SaidLastBy(more, says, after, |all|);
    } else if i :| SaidLastBy(all, says, before, i) {
      assert SaidLastBy(more, says, after, i);
    }
  }

  lemma OneEventSays(cap: nat, s: State, ev: Event)
    ensures var t := Apply(cap, s, ev);
            && (NamesTool(ev, t.lastTool) || (t.lastTool == s.lastTool && forall v :: !NamesTool(ev, v)))
            && (TellsError(ev, t.lastError) || (t.lastError == s.lastError && forall v :: !TellsError(ev, v)))
            && t.lastEventAt == ev.ts
  {
  }

  /** The tool and the error shown are those of the latest events that tell one, and the time is that of the
      latest event. */
  lemma {:induction false} LatestIsShown(decode: Decoder, cap: nat, lines: seq<Text>)
    ensures var s, all := Fold(decode, cap, FRESH, lines), Decoded(decode, lines);
            && Latest(all, NamesTool, s.lastTool) && Latest(all, TellsError, s.lastError)
            && s.lastEventAt == if all == [] then 0 else all[|all| - 1].ts
  {
    hide Apply, NamesTool, TellsError, Latest;
    if lines == [] {
      NothingShown();
    } else {
      var front, ev := lines[..|lines| - 1], decode(lines[|lines| - 1]);
      LatestIsShown(decode, cap, front);
      if ev.Some? {
        var before := Fold(decode, cap, FRESH, front);
        OneEventSays(cap, before, ev.value);
        var after := Apply(cap, before, ev.value);
        LatestOneMore(Decoded(decode, front), NamesTool, before.lastTool, ev.value, after.lastTool);
        LatestOneMore(Decoded(decode, front), TellsError, before.lastError, ev.value, after.lastError);
      }
    }
  }

  lemma NothingShown()
    ensures Latest([], NamesTool, "") && Latest([], TellsError, "")
  {
  }

  // ----- Where the offset goes wrong -----

  /** Lines that lose a carriage return. */
  function CrLines(data: Text): nat {
    var i := LineEnd(data);
    if data == [] then 0
    else (if i > 0 && data[i - 1] == 13 then 1 else 0) + if i < |data| then CrLines(data[i + 1..]) else 0
  }

  predicate AllShort(data: Text) {
    var i := LineEnd(data);
    i < 4_194_304 && (i < |data| ==> AllShort(data[i + 1..]))
  }

  predicate Terminated(data: Text) {
    data == [] || data[|data| - 1] == NEWLINE
  }

  /** How far the offset moves: one byte too little for every carriage return, one too many for a last
      line without its newline. */
  lemma {:induction false} OffsetDrift(data: Text)
    requires AllShort(data)
    ensures BytesOf(Scan(data)) == |data| - CrLines(data) + if Terminated(data) then 0 else 1
  {
    hide LineEnd, Scan, BytesOf, DropCR, CrLines, Terminated;
    var i := LineEnd(data);
    if i < |data| {
      var front, rest := data[..i], data[i + 1..];
      assert data == front + [NEWLINE] + rest;
      OffsetDrift(rest);
      DriftFirst(front, rest);
      LengthWithoutCR(front);
    } else {
      DriftLast(data);
      LengthWithoutCR(data);
    }
  }

  lemma DriftFirst(front: Text, rest: Text)
    requires NEWLINE !in front && |front| < MAX_LINE
    ensures var s := front + [NEWLINE] + rest;
            && BytesOf(Scan(s)) == |DropCR(front)| + 1 + BytesOf(Scan(rest))
            && CrLines(s) == (if DropCR(front) == front then 0 else 1) + CrLines(rest)
            && (Terminated(s) <==> Terminated(rest))
  {
    hide LineEnd, Scan, BytesOf;
    FirstOf(front, rest);
    assert front != [] ==> (front + [NEWLINE] + rest)[|front| - 1] == front[|front| - 1];
    BytesFirst(DropCR(front), Scan(rest));
  }

  lemma DriftLast(data: Text)
    requires LineEnd(data) == |data| < MAX_LINE
    ensures BytesOf(Scan(data)) == if data == [] then 0 else |DropCR(data)| + 1
    ensures CrLines(data) == if DropCR(data) == data then 0 else 1
    ensures Terminated(data) <==> data == []
  {
    assert data[..|data|] == data;
    NoBytes();
    NothingIsWhole();
    if data != [] {
      OnlyLine(data);
    }
  }

  lemma NoBytes()
    ensures BytesOf([]) == 0
  {
  }

  lemma LengthWithoutCR(line: Text)
    ensures |DropCR(line)| == |line| - if DropCR(line) == line then 0 else 1
  {
  }

  lemma OnlyLine(data: Text)
    requires data != [] && LineEnd(data) == |data| && |data| < MAX_LINE
    ensures Scan(data) == [DropCR(data)] && BytesOf(Scan(data)) == |DropCR(data)| + 1
  {
    hide DropCR, LineEnd;
    assert data[..|data|] == data;
    BytesFirst(DropCR(data), []);
    assert [DropCR(data)] + [] == [DropCR(data)];
  }

  lemma ScanOpenLine(p: Text)
    requires PlainLine(p) && p != []
    ensures Scan(p) == [p] && BytesOf([p]) == |p| + 1
  {
    assert LineEnd(p) == |p|;
    assert p[..|p|] == p && [p][..0] == [];
  }

  lemma ScanClosedLine(p: Text)
    requires PlainLine(p)
    ensures Scan(p + [NEWLINE]) == [p]
  {
    SplitAtNewline(p, []);
    assert p + [NEWLINE] + [] == p + [NEWLINE];
  }

  /** A line is half written, refreshed, completed, and refreshed again. */
  function Halves(p: Text, q: Text): seq<Step> {
    [Append(p), Refresh, Append(q + [NEWLINE]), Refresh]
  }

  lemma RunStep(decode: Decoder, cap: nat, steps: seq<Step>, st: Step)
    ensures var w := RunOf(decode, cap, steps);
            RunOf(decode, cap, steps + [st]) ==
              match st
              case Append(chunk) => w.(file := w.file + chunk)
              case Refresh => w.(reader := RefreshOf(decode, cap, w.reader, w.file))
  {
    assert (steps + [st])[..|steps|] == steps;
  }

  lemma HalvesRun(decode: Decoder, cap: nat, p: Text, q: Text)
    ensures var first := RefreshOf(decode, cap, UNREAD, p);
            RunOf(decode, cap, Halves(p, q)).reader == RefreshOf(decode, cap, first, p + q + [NEWLINE])
  {
    hide RefreshOf;
    RunStep(decode, cap, [], Append(p));
    RunStep(decode, cap, [Append(p)], Refresh);
    RunStep(decode, cap, [Append(p), Refresh], Append(q + [NEWLINE]));
    RunStep(decode, cap, [Append(p), Refresh, Append(q + [NEWLINE])], Refresh);
    assert [] + [Append(p)] == [Append(p)] && [Append(p)] + [Refresh] == [Append(p), Refresh];
    assert [Append(p), Refresh] + [Append(q + [NEWLINE])] == [Append(p), Refresh, Append(q + [NEWLINE])];
    assert [Append(p), Refresh, Append(q + [NEWLINE])] + [Refresh] == Halves(p, q);
    assert [] + p == p && p + (q + [NEWLINE]) == p + q + [NEWLINE];
  }

  /** A line that is refreshed before it is complete is not deferred: the reader takes its first part
      for a line and, once the rest is there, skips a byte of it and takes what remains for another. */
  lemma PartialLineIsSplit(decode: Decoder, cap: nat, p: Text, q: Text)
    requires p != [] && PlainLine(p) && PlainLine(q) && PlainLine(p + q)
    ensures RunOf(decode, cap, Halves(p, q)).reader.state ==
              Fold(decode, cap, FRESH, if q == [] then [p] else [p, q[1..]])
  {
    hide RunOf, Scan, Fold, DropCR, LineEnd, BytesOf;
    HalvesRun(decode, cap, p, q);
    ScanOpenLine(p);
    var file := p + q + [NEWLINE];
    assert p[0..] == p;
    assert RefreshOf(decode, cap, UNREAD, p) == Reader(|p| + 1, Fold(decode, cap, FRESH, [p]));
    if q == [] {
      assert file[|p| + 1..] == [];
      NothingIsWhole();
      FoldConcat(decode, cap, FRESH, [p], []);
      assert [p] + [] == [p];
    } else {
      assert file[|p| + 1..] == q[1..] + [NEWLINE];
      assert PlainLine(q[1..]) by { PlainRest(q); }
      ScanClosedLine(q[1..]);
      FoldConcat(decode, cap, FRESH, [p], [q[1..]]);
      assert [p] + [q[1..]] == [p, q[1..]];
    }
  }

  lemma PlainRest(q: Text)
    requires PlainLine(q) && q != []
    ensures PlainLine(q[1..])
  {
  }

  ghost predicate SurvivesSplit(decode: Decoder, cap: nat, p: Text, q: Text) {
    RunOf(decode, cap, Halves(p, q)).reader.state == Fold(decode, cap, FRESH, Scan(p + q + [NEWLINE]))
  }

  /** So an early refresh is harmless, whatever the lines mean, exactly if only the newline was missing. */
  lemma PartialLineSurvivesIff(cap: nat, p: Text, q: Text)
    requires p != [] && PlainLine(p) && PlainLine(q) && PlainLine(p + q)
    ensures (forall decode :: SurvivesSplit(decode, cap, p, q)) <==> q == []
  {
    hide Scan;
    ScanClosedLine(p + q);
    forall decode ensures RunOf(decode, cap, Halves(p, q)).reader.state ==
                            Fold(decode, cap, FRESH, if q == [] then [p] else [p, q[1..]])
    {
      PartialLineIsSplit(decode, cap, p, q);
    }
    if q == [] {
      assert p + q == p;
    } else {
      var picky: Decoder := line => if line == p + q then Some(Event(0, Iteration, None)) else None;
      assert |p| != |p + q| && |q[1..]| != |p + q|;
      assert picky(p) == None && picky(q[1..]) == None && picky(p + q).Some?;
      assert [p, q[1..]][..1] == [p] && [p][..0] == [] && [p + q][..0] == [];
      assert Fold(picky, cap, FRESH, [p]) == FRESH;
      assert Fold(picky, cap, FRESH, [p, q[1..]]) == FRESH;
      assert Fold(picky, cap, FRESH, [p + q]).counts.iterations == 1;
      assert !SurvivesSplit(picky, cap, p, q);
    }
  }
}
