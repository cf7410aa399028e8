/** The conversation a stateless run leaves for its resume (tools/transcript.go): stored without system
    messages and cache hints, and replayed in front of the next prompt. */
module Transcript {
  import opened Wrappers

  datatype FunctionCall = FunctionCall(name: string, args: string)

  /** The parts of a message. The tool loop makes the first three kinds; a cache hint wraps another part. */
  datatype Part =
    | Text(text: string)
    | ToolCall(id: string, toolType: string, call: Option<FunctionCall>)
    | ToolResponse(toolCallId: string, name: string, content: string)
    | Cached(part: Part)
    | Binary

  datatype Role = System | Human | AI | Tool
  datatype Message = Message(role: Role, parts: seq<Part>)

  datatype PartKind = TextKind | ToolCallKind | ToolResponseKind | UnknownKind
  datatype StoredPart = StoredPart(
    kind: PartKind, text: string, id: string, toolType: string, name: string, args: string,
    toolCallId: string, content: string)
  datatype StoredMessage = StoredMessage(role: Role, parts: seq<StoredPart>)

  // ----- Storing one message -----

  const NO_PART := StoredPart(UnknownKind, "", "", "", "", "", "", "")

  /** How a part is stored, if it is; one level of cache hint is taken off. */
  function EncodePart(p: Part): Option<StoredPart> {
    match if p.Cached? then p.part else p
    case Text(text) => Some(NO_PART.(kind := TextKind, text := text))
    case ToolCall(id, toolType, call) =>
      var stored := NO_PART.(kind := ToolCallKind, id := id, toolType := toolType);
      Some(if call.Some? then stored.(name := call.value.name, args := call.value.args) else stored)
    case ToolResponse(toolCallId, name, content) =>
      Some(NO_PART.(kind := ToolResponseKind, toolCallId := toolCallId, name := name, content := content))
    case _ => None
  }

  function DecodePart(p: StoredPart): Option<Part> {
    match p.kind
    case TextKind => Some(Text(p.text))
    case ToolCallKind => Some(ToolCall(p.id, p.toolType, Some(FunctionCall(p.name, p.args))))
    case ToolResponseKind => Some(ToolResponse(p.toolCallId, p.name, p.content))
    case UnknownKind => None
  }

  /** What survives of a part: it comes back as its plain form. */
  function Plain(p: Part): Option<Part> {
    match if p.Cached? then p.part else p
    case Text(text) => Some(Text(text))
    case ToolCall(id, toolType, call) =>
      Some(ToolCall(id, toolType, Some(if call.Some? then call.value else FunctionCall("", ""))))
    case ToolResponse(toolCallId, name, content) => Some(ToolResponse(toolCallId, name, content))
    case _ => None
  }

  function Collect<S, T>(s: seq<S>, f: S -> Option<T>): seq<T> {
    if s == [] then []
    else
      var front, last := Collect(s[..|s| - 1], f), f(s[|s| - 1]);
      if last.Some? then front + [last.value] else front
  }

  method EncodeParts(parts: seq<Part>) returns (out: seq<StoredPart>)
    ensures out == Collect(parts, EncodePart)
  {
    out := [];
    for i := 0 to |parts|
      invariant out == Collect(parts[..i], EncodePart)
    {
      assert parts[..i + 1][..i] == parts[..i];
      var part := if parts[i].Cached? then parts[i].part else parts[i];
      match part {
        case Text(text) => out := out + [NO_PART.(kind := TextKind, text := text)];
        case ToolCall(id, toolType, call) =>
          var stored := NO_PART.(kind := ToolCallKind, id := id, toolType := toolType);
          if call.Some? {
            stored := stored.(name := call.value.name, args := call.value.args);
          }
          out := out + [stored];
        case ToolResponse(toolCallId, name, content) =>
          out := out + [NO_PART.(kind := ToolResponseKind, toolCallId := toolCallId, name := name, content := content)];
        case _ =>
      }
    }
    assert parts[..|parts|] == parts;
  }

  method DecodeParts(parts: seq<StoredPart>) returns (out: seq<Part>)
    ensures out == Collect(parts, DecodePart)
  {
    out := [];
    for i := 0 to |parts|
      invariant out == Collect(parts[..i], DecodePart)
    {
      assert parts[..i + 1][..i] == parts[..i];
      var p := parts[i];
      match p.kind {
        case TextKind => out := out + [Text(p.text)];
        case ToolCallKind => out := out + [ToolCall(p.id, p.toolType, Some(FunctionCall(p.name, p.args)))];
        case ToolResponseKind => out := out + [ToolResponse(p.toolCallId, p.name, p.content)];
        case UnknownKind =>
      }
    }
    assert parts[..|parts|] == parts;
  }

  /** Decoding undoes encoding, up to the plain form. */
  lemma {:induction false} DecodeUndoesEncode(parts: seq<Part>)
    ensures Collect(Collect(parts, EncodePart), DecodePart) == Collect(parts, Plain)
    ensures |Collect(parts, EncodePart)| == |Collect(parts, Plain)|
  {
    if parts != [] {
      var front, last := parts[..|parts| - 1], parts[|parts| - 1];
      DecodeUndoesEncode(front);
      var stored := Collect(front, EncodePart);
      if EncodePart(last).Some? {
        assert (stored + [EncodePart(last).value])[..|stored|] == stored;
      }
    }
  }

  // ----- Storing a conversation -----

  function EncodeMessage(m: Message): Option<StoredMessage> {
    var parts := Collect(m.parts, EncodePart);
    if m.role == System || parts == [] then None else Some(StoredMessage(m.role, parts))
  }

  function DecodeMessage(m: StoredMessage): Option<Message> {
    Some(Message(m.role, Collect(m.parts, DecodePart)))
  }

  function PlainMessage(m: Message): Option<Message> {
    var parts := Collect(m.parts, Plain);
    if m.role == System || parts == [] then None else Some(Message(m.role, parts))
  }

  /** The turns of a conversation: what of it is worth replaying. */
  function Turns(messages: seq<Message>): seq<Message> {
    Collect(messages, PlainMessage)
  }

  type File = Option<seq<StoredMessage>>

  function Saved(before: File, messages: seq<Message>): File {
    var out := Collect(messages, EncodeMessage);
    if out == [] then before else Some(out)
  }

  function Loaded(file: File): seq<Message> {
    if file.None? then [] else Collect(file.value, DecodeMessage)
  }

  method SaveTranscript(before: File, messages: seq<Message>) returns (file: File)
    ensures file == Saved(before, messages)
  {
    var out := [];
    for i := 0 to |messages|
      invariant out == Collect(messages[..i], EncodeMessage)
    {
      assert messages[..i + 1][..i] == messages[..i];
      if messages[i].role == System {
        continue;
      }
      var parts := EncodeParts(messages[i].parts);
      if |parts| == 0 {
        continue;
      }
      out := out + [StoredMessage(messages[i].role, parts)];
    }
    assert messages[..|messages|] == messages;
    file := if |out| == 0 then before else Some(out);
  }

  method LoadTranscript(file: File) returns (messages: seq<Message>)
    ensures messages == Loaded(file)
  {
    messages := [];
    if file.None? {
      return;
    }
    for i := 0 to |file.value|
      invariant messages == Collect(file.value[..i], DecodeMessage)
    {
      assert file.value[..i + 1][..i] == file.value[..i];
      var parts := DecodeParts(file.value[i].parts);
      messages := messages + [Message(file.value[i].role, parts)];
    }
    assert file.value[..|file.value|] == file.value;
  }

  /** Loading undoes saving: the turns come back, in plain form. A conversation without turns leaves
      the file as it was. */
  lemma {:induction false} LoadUndoesSave(before: File, messages: seq<Message>)
    ensures Collect(Collect(messages, EncodeMessage), DecodeMessage) == Turns(messages)
    ensures Loaded(Saved(before, messages)) == if Turns(messages) == [] then Loaded(before) else Turns(messages)
  {
    if messages != [] {
      var front, last := messages[..|messages| - 1], messages[|messages| - 1];
      LoadUndoesSave(before, front);
      DecodeUndoesEncode(last.parts);
      var stored := Collect(front, EncodeMessage);
      if EncodeMessage(last).Some? {
        assert (stored + [EncodeMessage(last).value])[..|stored|] == stored;
      }
    }
  }

  lemma {:induction false} CollectConcat<S, T>(a: seq<S>, b: seq<S>, f: S -> Option<T>)
    ensures Collect(a + b, f) == Collect(a, f) + Collect(b, f)
  {
    if b == [] {
      assert a + b == a;
    } else {
      assert (a + b)[..|a + b| - 1] == a + b[..|b| - 1];
      CollectConcat(a, b[..|b| - 1], f);
    }
  }

  /** Plain forms are plain, so that replaying changes nothing further. */
  lemma {:induction false} PlainTwice(parts: seq<Part>)
    ensures Collect(Collect(parts, Plain), Plain) == Collect(parts, Plain)
  {
    if parts != [] {
      var front, last := parts[..|parts| - 1], parts[|parts| - 1];
      PlainTwice(front);
      var plain := Collect(front, Plain);
      if Plain(last).Some? {
        assert (plain + [Plain(last).value])[..|plain|] == plain;
      }
    }
  }

  lemma {:induction false} TurnsTwice(messages: seq<Message>)
    ensures Turns(Turns(messages)) == Turns(messages)
  {
    if messages != [] {
      var front, last := messages[..|messages| - 1], messages[|messages| - 1];
      TurnsTwice(front);
      PlainTwice(last.parts);
      if PlainMessage(last).Some? {
        assert (Turns(front) + [PlainMessage(last).value])[..|Turns(front)|] == Turns(front);
      }
    }
  }

  // ----- Resuming, again and again -----

  function Splice(initial: seq<Message>, prior: seq<Message>): seq<Message> {
    if prior == [] then initial
    else if initial == [] then prior
    else initial[..|initial| - 1] + prior + [initial[|initial| - 1]]
  }

  /** Everything but the last message of `initial` comes first, then all of `prior`, then that last
      message; each list keeps its order, and either may be empty. */
  method SplicePriorMessages(initial: seq<Message>, prior: seq<Message>) returns (out: seq<Message>)
    ensures out == Splice(initial, prior) && |out| == |initial| + |prior|
    ensures forall k :: 0 <= k < |initial| - 1 ==> out[k] == initial[k]
    ensures forall k :: 0 <= k < |prior| ==> out[k + if initial == [] then 0 else |initial| - 1] == prior[k]
    ensures initial != [] ==> out[|out| - 1] == initial[|initial| - 1]
  {
    if |prior| == 0 {
      return initial;
    }
    if |initial| == 0 {
      return prior;
    }
    var last := initial[|initial| - 1];
    out := initial[..|initial| - 1];
    out := out + prior;
    out := out + [last];
  }

  /** A run: its prompts, whether they carry cache hints, and the messages its loop appended. */
  datatype RunInput = RunInput(system: string, user: string, cache: bool, appended: seq<Message>)

  function Wrap(p: Part, cache: bool): Part {
    if cache then Cached(p) else p
  }

  function UserMessage(r: RunInput): Message {
    Message(Human, [Wrap(Text(r.user), r.cache)])
  }

  function SystemMessages(r: RunInput): seq<Message> {
    if r.system == "" then [] else [Message(System, [Wrap(Text(r.system), r.cache)])]
  }

  /** What the run sends the model first. */
  function Opening(file: File, r: RunInput): seq<Message> {
    Splice(SystemMessages(r) + [UserMessage(r)], Loaded(file))
  }

  /** The session's file after a number of runs, each resuming the one before. */
  function FileAfter(runs: seq<RunInput>): File {
    if runs == [] then None
    else
      var before, r := FileAfter(runs[..|runs| - 1]), runs[|runs| - 1];
      Saved(before, Opening(before, r) + r.appended)
  }

  /** What a run adds to the conversation. */
  function Added(r: RunInput): seq<Message> {
    [Message(Human, [Text(r.user)])] + Turns(r.appended)
  }

  function AllAdded(runs: seq<RunInput>): seq<Message> {
    if runs == [] then [] else AllAdded(runs[..|runs| - 1]) + Added(runs[|runs| - 1])
  }

  lemma CollectOne<S, T>(x: S, f: S -> Option<T>)
    ensures Collect([x], f) == if f(x).Some? then [f(x).value] else []
  {
    assert [x][..0] == [];
  }

  lemma PromptTurns(r: RunInput)
    ensures Turns(SystemMessages(r)) == [] && Turns([UserMessage(r)]) == [Message(Human, [Text(r.user)])]
  {
    hide Collect;
    CollectOne(Wrap(Text(r.user), r.cache), Plain);
    CollectOne(UserMessage(r), PlainMessage);
    if r.system == "" {
      NothingLoaded();
    } else {
      CollectOne(SystemMessages(r)[0], PlainMessage);
      assert SystemMessages(r) == [SystemMessages(r)[0]];
    }
  }

  lemma RunAdds(file: File, r: RunInput, prior: seq<Message>)
    requires Loaded(file) == prior == Turns(prior)
    ensures Opening(file, r) == SystemMessages(r) + prior + [UserMessage(r)]
    ensures Turns(Opening(file, r) + r.appended) == prior + Added(r)
  {
    hide Turns, SystemMessages, UserMessage;
    var opening := SystemMessages(r) + prior + [UserMessage(r)];
    var initial := SystemMessages(r) + [UserMessage(r)];
    assert initial[..|initial| - 1] == SystemMessages(r);
    assert Opening(file, r) == opening by {
      if prior == [] {
        assert opening == initial;
      }
    }
    PromptTurns(r);
    TurnsConcat(SystemMessages(r) + prior + [UserMessage(r)], r.appended);
    TurnsConcat(SystemMessages(r) + prior, [UserMessage(r)]);
    TurnsConcat(SystemMessages(r), prior);
    assert [] + prior == prior;
    assert prior + [Message(Human, [Text(r.user)])] + Turns(r.appended) == prior + Added(r);
  }

  lemma TurnsConcat(a: seq<Message>, b: seq<Message>)
    ensures Turns(a + b) == Turns(a) + Turns(b)
  {
    CollectConcat(a, b, PlainMessage);
  }

  /** Over any number of resumes the session keeps every turn of every run exactly once, in order, and
      no system message; a resume sends its own system prompt, all of them, and the new prompt. */
  lemma {:induction false} ResumesAccumulate(runs: seq<RunInput>)
    ensures Loaded(FileAfter(runs)) == AllAdded(runs) == Turns(AllAdded(runs))
    ensures forall r :: Opening(FileAfter(runs), r) == SystemMessages(r) + AllAdded(runs) + [UserMessage(r)]
  {
    hide Turns, SystemMessages, UserMessage, Opening, Saved, Loaded;
    if runs == [] {
      NothingLoaded();
    } else {
      var front, r := runs[..|runs| - 1], runs[|runs| - 1];
      ResumesAccumulate(front);
      var before := FileAfter(front);
      RunAdds(before, r, AllAdded(front));
      var messages := Opening(before, r) + r.appended;
      LoadUndoesSave(before, messages);
      assert Turns(messages) == AllAdded(runs) && AllAdded(runs) != [];
      TurnsTwice(messages);
    }
    forall r ensures Opening(FileAfter(runs), r) == SystemMessages(r) + AllAdded(runs) + [UserMessage(r)] {
      RunAdds(FileAfter(runs), r, AllAdded(runs));
    }
  }

  lemma NothingLoaded()
    ensures Loaded(None) == [] && Turns([]) == []
  {
  }

  // ----- Runs that save to the same file -----

  /** A run that saves its conversation, and after how many saves of its process it began. */
  datatype Save = Save(run: RunInput, since: nat)

  /** The saves of one process, in order: those of its main run and of the tasks that it or they started. */
  datatype Process = Process(saves: seq<Save>, main: nat)

  predicate ValidProcess(p: Process) {
    && p.main < |p.saves| && p.saves[p.main].since == 0
    && forall i :: 0 <= i < |p.saves| ==> p.saves[i].since <= i
  }

  predicate ValidSession(session: seq<Process>) {
    forall k :: 0 <= k < |session| ==> ValidProcess(session[k])
  }

  predicate MainSavesLast(p: Process) {
    p.main == |p.saves| - 1
  }

  /** The file after some saves of a process. In a process that resumes a session each run replays what the
      file holds when it begins, and each save replaces the file. */
  function Saving(before: File, resumed: bool, saves: seq<Save>): File
    decreases |saves|, 0
  {
    if saves == [] then before
    else
      var front, last := saves[..|saves| - 1], saves[|saves| - 1];
      var opening := Opening(SeenBy(before, resumed, front, last.since), last.run);
      Saved(Saving(before, resumed, front), opening + last.run.appended)
  }

  /** What a run that began after some saves of its process replays. */
  function SeenBy(before: File, resumed: bool, saves: seq<Save>, since: nat): File
    decreases |saves|, 1
  {
    if !resumed then None else Saving(before, resumed, if since <= |saves| then saves[..since] else saves)
  }

  function FileOf(session: seq<Process>): File {
    if session == [] then None
    else Saving(FileOf(session[..|session| - 1]), |session| > 1, session[|session| - 1].saves)
  }

  function Mains(session: seq<Process>): seq<RunInput>
    requires ValidSession(session)
  {
    if session == [] then []
    else
      var last := session[|session| - 1];
      Mains(session[..|session| - 1]) + [last.saves[last.main].run]
  }

  /** The file replays as it is: nothing in it is lost on the way to a run. */
  ghost predicate Replayable(file: File) {
    Loaded(file) == Turns(Loaded(file))
  }

  /** The last run to save decides what the file holds: what that run had replayed, and what it added. */
  lemma SaveReplaces(file: File, seen: File, r: RunInput)
    requires Replayable(seen)
    ensures var after := Saved(file, Opening(seen, r) + r.appended);
            Loaded(after) == Loaded(seen) + Added(r) && Replayable(after)
  {
    hide Turns, Opening, Saved, Loaded;
    RunAdds(seen, r, Loaded(seen));
    var messages := Opening(seen, r) + r.appended;
    LoadUndoesSave(file, messages);
    assert Loaded(seen) + Added(r) != [];
    TurnsTwice(messages);
  }

  lemma {:induction false} LastSaveDecides(before: File, resumed: bool, saves: seq<Save>)
    requires Replayable(before)
    ensures Replayable(Saving(before, resumed, saves))
    ensures saves != [] ==>
              var front, last := saves[..|saves| - 1], saves[|saves| - 1];
              Loaded(Saving(before, resumed, saves)) ==
                Loaded(SeenBy(before, resumed, front, last.since)) + Added(last.run)
    decreases |saves|
  {
    hide Replayable, Loaded, Saved, Opening, Added;
    if saves != [] {
      var front, last := saves[..|saves| - 1], saves[|saves| - 1];
      NothingReplayable();
      LastSaveDecides(before, resumed, if last.since <= |front| then front[..last.since] else front);
      SaveReplaces(Saving(before, resumed, front), SeenBy(before, resumed, front, last.since), last.run);
    }
  }

  lemma NothingReplayable()
    ensures Replayable(None)
  {
    NothingLoaded();
  }

  lemma {:induction false} SessionReplayable(session: seq<Process>)
    ensures Replayable(FileOf(session))
  {
    hide Replayable, Saving;
    if session == [] {
      NothingReplayable();
    } else {
      SessionReplayable(session[..|session| - 1]);
      LastSaveDecides(FileOf(session[..|session| - 1]), |session| > 1, session[|session| - 1].saves);
    }
  }

  /** A process whose main run saves last adds exactly what that run added. */
  lemma {:induction false} MainAdds(session: seq<Process>)
    requires ValidSession(session) && session != [] && MainSavesLast(session[|session| - 1])
    ensures var last := session[|session| - 1];
            Loaded(FileOf(session)) == Loaded(FileOf(session[..|session| - 1])) + Added(last.saves[last.main].run)
  {
    hide Replayable, Loaded, Saved, Opening, Added;
    var front, last := session[..|session| - 1], session[|session| - 1];
    SessionReplayable(front);
    LastSaveDecides(FileOf(front), |session| > 1, last.saves);
    assert last.saves[..|last.saves| - 1][..0] == [];
    assert |session| == 1 ==> front == [];
  }

  /** Where the main run of every process saves last, the session keeps every turn of the main runs once, in
      order, and nothing else. */
  lemma {:induction false} MainsAccumulate(session: seq<Process>)
    requires ValidSession(session) && forall k :: 0 <= k < |session| ==> MainSavesLast(session[k])
    ensures Loaded(FileOf(session)) == AllAdded(Mains(session))
    ensures forall r :: Opening(FileOf(session), r) == SystemMessages(r) + AllAdded(Mains(session)) + [UserMessage(r)]
  {
    hide Loaded, Saving, Added, ValidProcess, Opening, SystemMessages, UserMessage, Turns;
    SessionReplayable(session);
    forall r
      ensures Opening(FileOf(session), r) == SystemMessages(r) + Loaded(FileOf(session)) + [UserMessage(r)]
    {
      RunAdds(FileOf(session), r, Loaded(FileOf(session)));
    }
    if session == [] {
      NothingLoaded();
    } else {
      var front, last := session[..|session| - 1], session[|session| - 1];
      assert forall k :: 0 <= k < |front| ==> front[k] == session[k];
      assert ValidProcess(last);
      MainsAccumulate(front);
      MainAdds(session);
      assert Mains(session)[..|Mains(session)| - 1] == Mains(front);
    }
  }

  /** The same saves at the same moments, of whatever conversations. */
  predicate SameMoments(a: Process, b: Process) {
    && a.main == b.main && |a.saves| == |b.saves|
    && forall i :: 0 <= i < |a.saves| ==> a.saves[i].since == b.saves[i].since
  }

  predicate SameShape(a: seq<Process>, b: seq<Process>) {
    |a| == |b| && forall k :: 0 <= k < |a| ==> SameMoments(a[k], b[k])
  }

  const MAIN := RunInput("", "main", false, [])
  const TASK := RunInput("", "task", false, [])

  /** The session in which the main runs say one thing, and all tasks another. */
  function Labelled(p: Process): Process {
    p.(saves := seq(|p.saves|, i requires 0 <= i < |p.saves| =>
                      p.saves[i].(run := if i == p.main then MAIN else TASK)))
  }

  function AllLabelled(session: seq<Process>): seq<Process> {
    seq(|session|, k requires 0 <= k < |session| => Labelled(session[k]))
  }

  function Said(text: string): Message {
    Message(Human, [Text(text)])
  }

  lemma LabelledAdds()
    ensures Added(MAIN) == [Said("main")] && Added(TASK) == [Said("task")]
  {
    assert Turns([]) == [] by { NothingLoaded(); }
    assert [Said("main")] + [] == [Said("main")] && [Said("task")] + [] == [Said("task")];
  }

  lemma LabelledFront(session: seq<Process>)
    requires session != [] && ValidSession(session)
    ensures ValidSession(AllLabelled(session)) && SameShape(session, AllLabelled(session))
    ensures var n := |session| - 1;
            AllLabelled(session)[..n] == AllLabelled(session[..n]) && AllLabelled(session)[n] == Labelled(session[n])
  {
    forall k | 0 <= k < |session| ensures ValidProcess(AllLabelled(session)[k]) {
      assert ValidProcess(session[k]);
    }
  }

  /** Once a task has saved after the main run, what it said is in the file for good. */
  lemma {:induction false} TaskStays(session: seq<Process>, k: nat)
    requires ValidSession(session) && k < |session| && !MainSavesLast(session[k])
    ensures Said("task") in Loaded(FileOf(AllLabelled(session)))
  {
    hide Loaded, Saving, Added, ValidProcess, FileOf, Replayable;
    var n := |session| - 1;
    var labelled, last := AllLabelled(session), Labelled(session[n]);
    LabelledFront(session);
    LabelledAdds();
    assert ValidProcess(session[n]) && ValidProcess(last);
    if MainSavesLast(session[n]) {
      TaskStays(session[..n], k);
      assert MainSavesLast(last) && last.saves[last.main].run == MAIN by { LabelledMain(session[n]); }
      MainAdds(labelled);
    } else {
      SessionReplayable(labelled[..n]);
      LastSaveDecides(FileOf(labelled[..n]), |session| > 1, last.saves);
      assert last.saves != [] && last.saves[|last.saves| - 1].run == TASK by { LabelledLast(session[n]); }
      assert FileOf(labelled) == Saving(FileOf(labelled[..n]), |session| > 1, last.saves) by { FileOfLast(labelled); }
    }
  }

  lemma FileOfLast(session: seq<Process>)
    requires session != []
    ensures FileOf(session) == Saving(FileOf(session[..|session| - 1]), |session| > 1, session[|session| - 1].saves)
  {
    hide Saving;
  }

  lemma LabelledMain(p: Process)
    requires ValidProcess(p)
    ensures (MainSavesLast(p) <==> MainSavesLast(Labelled(p))) && Labelled(p).saves[p.main].run == MAIN
  {
  }

  lemma LabelledLast(p: Process)
    requires ValidProcess(p) && !MainSavesLast(p)
    ensures Labelled(p).saves != [] && Labelled(p).saves[|p.saves| - 1].run == TASK
  {
  }

  lemma {:induction false} OnlyMainsSaid(session: seq<Process>)
    requires ValidSession(session)
    ensures ValidSession(AllLabelled(session)) && Said("task") !in AllAdded(Mains(AllLabelled(session)))
  {
    hide Added, ValidProcess, AllAdded;
    if session == [] {
      assert AllAdded([]) == [] by { NothingAdded(); }
    } else {
      var n, labelled := |session| - 1, AllLabelled(session);
      LabelledFront(session);
      LabelledAdds();
      OnlyMainsSaid(session[..n]);
      assert ValidProcess(session[n]);
      LabelledMain(session[n]);
      OneMoreAdded(Mains(labelled[..n]), MAIN);
      assert Said("task") != Said("main");
    }
  }

  lemma NothingAdded()
    ensures AllAdded([]) == []
  {
  }

  lemma OneMoreAdded(runs: seq<RunInput>, r: RunInput)
    ensures AllAdded(runs + [r]) == AllAdded(runs) + Added(r)
  {
    hide Added;
    assert (runs + [r])[..|runs|] == runs;
  }

  /** Whatever the conversations, a session keeps every turn of its main runs once, in order, and nothing else,
      if and only if the main run of every process is the last of it to save. */
  lemma MainsAccumulateIff(session: seq<Process>)
    requires ValidSession(session)
    ensures (forall other | SameShape(session, other) && ValidSession(other) ::
               Loaded(FileOf(other)) == AllAdded(Mains(other)))
            <==> forall k :: 0 <= k < |session| ==> MainSavesLast(session[k])
  {
    hide Loaded, FileOf, AllAdded, Mains, ValidProcess;
    if k: nat :| k < |session| && !MainSavesLast(session[k]) {
      TaskStays(session, k);
      OnlyMainsSaid(session);
      LabelledFront(session);
    } else {
      forall other | SameShape(session, other) && ValidSession(other)
        ensures Loaded(FileOf(other)) == AllAdded(Mains(other))
      {
        forall k | 0 <= k < |other| ensures MainSavesLast(other[k]) {
          assert SameMoments(session[k], other[k]) && MainSavesLast(session[k]);
        }
        MainsAccumulate(other);
      }
    }
  }
}
