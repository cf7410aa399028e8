/** The live session with the claude CLI (agenticcli/claude_live.go) and the sign-off gate that answers
    its permission requests (runner/signoff_claude.go). The first half is what one stdout event does
    to the session, on values; the second half is the session as the source keeps it, in fields. */
module LiveSession {
  import opened WhiteSpace
  import opened Wrappers
  import opened Reviewer

  const MAX_PROTOCOL_ERRORS: nat := 2
  const MUTATING_TOOLS := {"Write", "Edit", "MultiEdit", "NotebookEdit"}

  /** One content block of an assistant event; only text blocks carry text. */
  datatype Block = Block(isText: bool, text: string)
  datatype Message = Message(id: string, blocks: seq<Block>)
  datatype Request = Request(subtype: string, tool: string)

  /** One decoded stdout line, or the approval of a plan by another agent that shares the runtime. */
  datatype Event =
    | Undecodable
    | System(isInit: bool)
    | Assistant(message: Option<Message>)
    | Control(id: string, request: Option<Request>)
    | Result(decodable: bool, failed: bool)
    | ControlAck
    | Other
    | SharedApproval

  /** What the session does to the outside, and how it dies. */
  datatype Action =
    | Approval
    | Reviewed(answer: Answer)
    | Answered(id: string, tool: string, allow: bool)
    | Unsupported(id: string)
    | Interrupt(number: nat)

  datatype Death = ProtocolDeath | SendFailed | CallbackFailed | BadResult

  /** The prose of the message in flight, and that of the last message before it that had any. */
  datatype PlanText = PlanText(curMsgID: string, curText: string, lastText: string)

  /** `pipe` is the number of writes stdin still takes before it breaks. */
  datatype Session = Session(
    approved: bool, rejected: bool, protoErrs: nat, text: PlanText,
    resultSeen: bool, resultFailed: bool, stdinClosed: bool, interrupts: nat, pipe: nat, trace: seq<Action>)

  function Start(pipe: nat): Session {
    Session(false, false, 0, PlanText("", "", ""), false, false, false, 0, pipe, [])
  }

  // ----- One event -----

  function AddText(acc: string, text: string): string {
    if text == "" then acc else if acc == "" then text else acc + "\n" + text
  }

  function AddBlocks(acc: string, blocks: seq<Block>): string {
    if blocks == [] then acc
    else
      var last := blocks[|blocks| - 1];
      AddText(AddBlocks(acc, blocks[..|blocks| - 1]), if last.isText then last.text else "")
  }

  function Accumulate(t: PlanText, m: Message): PlanText {
    var rolled :=
      if m.id != t.curMsgID then PlanText(m.id, "", if t.curText != "" then t.curText else t.lastText) else t;
    rolled.(curText := AddBlocks(rolled.curText, m.blocks))
  }

  function LatestAssistantText(t: PlanText): string {
    TrimSpace(if t.curText != "" then t.curText else t.lastText)
  }

  datatype Decision = Allow | Deny | DenyAndInterrupt | CallbackError

  /** The gate's decision. `a` is what the reviewer answers, should the plan be shown. */
  function CanUseTool(s: Session, tool: string, a: Answer): (Session, Decision) {
    if tool !in MUTATING_TOOLS then (s, Allow)
    else if s.approved then (s, Allow)
    else if s.rejected then (s, Deny)
    else if LatestAssistantText(s.text) == "" then (s, Deny)
    else
      var t := s.(trace := s.trace + [Reviewed(a)]);
      match a
      case Approved => (t.(approved := true), Allow)
      case Rejected => (t.(rejected := true), DenyAndInterrupt)
      case Feedback(_) => (t, Deny)
      case Failed => (t, CallbackError)
  }

  /** A write to the CLI, unless stdin is closed or broken. */
  function Send(s: Session, action: Action): (Session, bool) {
    if s.stdinClosed || s.pipe == 0 then (s, false)
    else (s.(trace := s.trace + [action], pipe := s.pipe - 1), true)
  }

  function SendInterrupt(s: Session): (Session, bool) {
    Send(s.(interrupts := s.interrupts + 1), Interrupt(s.interrupts + 1))
  }

  function ProtocolError(s: Session): (Session, Option<Death>) {
    var t := s.(protoErrs := s.protoErrs + 1);
    (t, if t.protoErrs >= MAX_PROTOCOL_ERRORS then Some(ProtocolDeath) else None)
  }

  function HandleControlRequest(s: Session, id: string, request: Option<Request>, a: Answer): (Session, Option<Death>) {
    if request.None? || id == "" then ProtocolError(s)
    else if request.value.subtype != "can_use_tool" then
      var (t, sent) := Send(s, Unsupported(id));
      if sent then ProtocolError(t) else (t, Some(SendFailed))
    else
      var tool := request.value.tool;
      var (t, decision) := CanUseTool(s.(protoErrs := 0), tool, a);
      Deliver(t, id, tool, decision)
  }

  /** Answers a request, and asks for an interrupt after a rejection. */
  function Deliver(s: Session, id: string, tool: string, decision: Decision): (Session, Option<Death>) {
    var (t, sent) := Send(s, Answered(id, tool, decision == Allow));
    if decision == CallbackError then (t, Some(CallbackFailed))
    else if !sent then (t, Some(SendFailed))
    else if decision != DenyAndInterrupt then (t, None)
    else
      var (u, interrupted) := SendInterrupt(t);
      (u, if interrupted then None else Some(SendFailed))
  }

  function Handle(s: Session, e: Event, a: Answer): (Session, Option<Death>) {
    match e
    case Undecodable => ProtocolError(s)
    case System(isInit) => (if isInit then s.(protoErrs := 0) else s, None)
    case Assistant(m) =>
      var t := s.(protoErrs := 0);
      (if m.Some? then t.(text := Accumulate(s.text, m.value)) else t, None)
    case Control(id, request) => HandleControlRequest(s, id, request, a)
    case Result(decodable, failed) =>
      var t := s.(protoErrs := 0, resultSeen := true);
      if decodable then (t.(resultFailed := failed, stdinClosed := true), None) else (t, Some(BadResult))
    case ControlAck => (s.(protoErrs := 0), None)
    case Other => (s, None)
    case SharedApproval => (s.(approved := true, trace := s.trace + [Approval]), None)
  }

  // ----- Whole runs -----

  /** An event with the answer the reviewer gives if it leads to a review. */
  datatype Turn = Turn(event: Event, answer: Answer)

  /** A finished or running session: how many events it handled, and how it died if it did. */
  datatype Run = Run(session: Session, handled: nat, death: Option<Death>)

  function RunOn(start: Session, inputs: seq<Turn>): Run {
    if inputs == [] then Run(start, 0, None)
    else
      var before, last := RunOn(start, inputs[..|inputs| - 1]), inputs[|inputs| - 1];
      if before.death.Some? then before
      else
        var (s, death) := Handle(before.session, last.event, last.answer);
        Run(s, before.handled + 1, death)
  }

  // ----- The session in fields -----

  class ClaudeSignOffGate {
    const rt: SignOffRuntime
    var rejected: bool

    constructor (rt: SignOffRuntime)
      ensures this.rt == rt && !rejected
    {
      this.rt := rt;
      rejected := false;
    }

    /** Decides one request. Whether the reviewer was asked shows in the runtime's reviews; the
        reviewer's answer is `a` if so. */
    method CanUseTool(tool: string, assistantText: string) returns (v: Decision, ghost a: Answer)
      modifies this`rejected, rt
      ensures var asked := tool in MUTATING_TOOLS && !old(rt.approved) && !old(rejected)
                           && TrimSpace(assistantText) != "";
              && rt.reviews == (if asked then old(rt.reviews) + [a] else old(rt.reviews))
              && rt.approved == (old(rt.approved) || (asked && a == Approved))
              && rejected == (old(rejected) || (asked && a == Rejected))
              && v == (if tool !in MUTATING_TOOLS || old(rt.approved) then Allow
                       else if !asked then Deny
                       else match a
                         case Approved => Allow
                         case Rejected => DenyAndInterrupt
                         case Feedback(_) => Deny
                         case Failed => CallbackError)
    {
      a := Failed;
      if tool !in MUTATING_TOOLS {
        return Allow, a;
      }
      if rt.approved {
        return Allow, a;
      }
      if rejected {
        return Deny, a;
      }
      var plan := TrimSpace(assistantText);
      if plan == "" {
        return Deny, a;
      }
      var answer := rt.ReviewPlan();
      a := answer;
      match answer {
        case Failed => v := CallbackError;
        case Approved => v := Allow;
        case Rejected =>
          rejected := true;
          v := DenyAndInterrupt;
        case Feedback(_) => v := Deny;
      }
    }
  }

  class Live {
    const gate: ClaudeSignOffGate
    const rt: SignOffRuntime
    var protoErrs: nat
    var curMsgID: string
    var curText: string
    var lastText: string
    var resultSeen: bool
    var resultFailed: bool
    var stdinClosed: bool
    var interruptSeq: nat
    var pipe: nat
    ghost var trace: seq<Action>

    constructor (gate: ClaudeSignOffGate, pipe: nat)
      requires !gate.rt.approved && !gate.rejected
      ensures this.gate == gate && this.rt == gate.rt && Model() == Start(pipe)
    {
      this.gate, this.rt, this.pipe := gate, gate.rt, pipe;
      protoErrs, interruptSeq := 0, 0;
      curMsgID, curText, lastText := "", "", "";
      resultSeen, resultFailed, stdinClosed := false, false, false;
      trace := [];
    }

    ghost function Model(): Session
      reads this, gate, rt
    {
      Session(rt.approved, gate.rejected, protoErrs, PlanText(curMsgID, curText, lastText),
              resultSeen, resultFailed, stdinClosed, interruptSeq, pipe, trace)
    }

    method SendAction(ghost action: Action) returns (sent: bool)
      modifies this`pipe, this`trace
      ensures (Model(), sent) == Send(old(Model()), action)
    {
      if stdinClosed || pipe == 0 {
        return false;
      }
      pipe := pipe - 1;
      trace := trace + [action];
      sent := true;
    }

    method CloseStdin()
      modifies this`stdinClosed
      ensures Model() == old(Model()).(stdinClosed := true)
    {
      if !stdinClosed {
        stdinClosed := true;
      }
    }

    method RecordProtocolError() returns (fatal: Option<Death>)
      modifies this`protoErrs
      ensures (Model(), fatal) == ProtocolError(old(Model()))
    {
      protoErrs := protoErrs + 1;
      fatal := if protoErrs >= MAX_PROTOCOL_ERRORS then Some(ProtocolDeath) else None;
    }

    method AccumulateMessage(m: Message)
      modifies this`curMsgID, this`curText, this`lastText
      ensures Model() == old(Model()).(text := Accumulate(old(Model()).text, m))
    {
      if m.id != curMsgID {
        if curText != "" {
          lastText := curText;
        }
        curText := "";
        curMsgID := m.id;
      }
      ghost var base := curText;
      assert m.blocks[..0] == [];
      for i := 0 to |m.blocks|
        invariant curText == AddBlocks(base, m.blocks[..i])
        modifies this`curText
      {
        assert m.blocks[..i + 1][..i] == m.blocks[..i];
        var block := m.blocks[i];
        if block.isText && block.text != "" {
          if curText != "" {
            curText := curText + "\n";
          }
          curText := curText + block.text;
        }
      }
      assert m.blocks[..|m.blocks|] == m.blocks;
    }

    method HandleRequest(id: string, request: Option<Request>) returns (fatal: Option<Death>, ghost a: Answer)
      requires gate.rt == rt
      modifies this, gate`rejected, rt
      ensures (Model(), fatal) == HandleControlRequest(old(Model()), id, request, a)
    {
      a := Failed;
      if request.None? || id == "" {
        fatal := RecordProtocolError();
        return;
      }
      if request.value.subtype != "can_use_tool" {
        var sent := SendAction(Unsupported(id));
        if !sent {
          return Some(SendFailed), a;
        }
        fatal := RecordProtocolError();
        return;
      }
      protoErrs := 0;
      var decision;
      decision, a := Consult(request.value.tool);
      fatal := Answer(id, request.value.tool, decision);
    }

    method Consult(tool: string) returns (decision: Decision, ghost a: Answer)
      requires gate.rt == rt
      modifies this`trace, gate`rejected, rt
      ensures (Model(), decision) == CanUseTool(old(Model()), tool, a)
    {
      var text := TrimSpace(if curText != "" then curText else lastText);
      TrimTwice(if curText != "" then curText else lastText);
      ghost var reviews := rt.reviews;
      decision, a := gate.CanUseTool(tool, text);
      if |rt.reviews| > |reviews| {
        trace := trace + [Reviewed(a)];
      }
    }

    method Answer(id: string, tool: string, decision: Decision) returns (fatal: Option<Death>)
      modifies this`pipe, this`trace, this`interruptSeq
      ensures (Model(), fatal) == Deliver(old(Model()), id, tool, decision)
    {
      var sent := SendAction(Answered(id, tool, decision == Allow));
      if decision == CallbackError {
        return Some(CallbackFailed);
      }
      if !sent {
        return Some(SendFailed);
      }
      if decision == DenyAndInterrupt {
        interruptSeq := interruptSeq + 1;
        sent := SendAction(Interrupt(interruptSeq));
        if !sent {
          return Some(SendFailed);
        }
      }
      fatal := None;
    }

    /** Processes one event as the step function says, for the answer the reviewer gave. */
    method HandleEvent(e: Event) returns (fatal: Option<Death>, ghost a: Answer)
      requires gate.rt == rt
      modifies this, gate`rejected, rt
      ensures (Model(), fatal) == Handle(old(Model()), e, a)
    {
      fatal, a := None, Failed;
      match e {
        case Undecodable => fatal := RecordProtocolError();
        case System(isInit) =>
          if isInit {
            protoErrs := 0;
          }
        case Assistant(m) =>
          protoErrs := 0;
          if m.Some? {
            AccumulateMessage(m.value);
          }
        case Control(id, request) => fatal, a := HandleRequest(id, request);
        case Result(decodable, failed) =>
          protoErrs := 0;
          resultSeen := true;
          if !decodable {
            return Some(BadResult), a;
          }
          resultFailed := failed;
          CloseStdin();
        case ControlAck => protoErrs := 0;
        case Other =>
        case SharedApproval =>
          rt.approved := true;
          trace := trace + [Approval];
      }
    }

    /** Processes events until the end of stdout or a fatal one. `inputs` pairs the events with what
        the reviewer answered. */
    method Drain(events: seq<Event>) returns (fatal: Option<Death>, ghost inputs: seq<Turn>)
      requires gate.rt == rt
      modifies this, gate`rejected, rt
      ensures |inputs| <= |events| && forall i :: 0 <= i < |inputs| ==> inputs[i].event == events[i]
      ensures RunOn(old(Model()), inputs) == Run(Model(), |inputs|, fatal)
      ensures fatal.None? ==> |inputs| == |events|
    {
      hide Handle;
      inputs := [];
      fatal := None;
      ghost var start := Model();
      var i := 0;
      while i < |events| && fatal.None?
        invariant 0 <= i <= |events| && |inputs| == i
        invariant forall j :: 0 <= j < i ==> inputs[j].event == events[j]
        invariant RunOn(start, inputs) == Run(Model(), i, fatal)
      {
        ghost var a;
        fatal, a := HandleEvent(events[i]);
        ghost var more := inputs + [Turn(events[i], a)];
        assert more[..i] == inputs;
        inputs := more;
        i := i + 1;
      }
    }

    /** Runs the session over the whole of stdout. It succeeds exactly if nothing was fatal, the run was
        not cancelled, and a result arrived that reports no error. */
    method Loop(events: seq<Event>, cancelled: bool) returns (ok: bool, ghost inputs: seq<Turn>)
      requires gate.rt == rt
      modifies this, gate`rejected, rt
      ensures |inputs| == |events| && forall i :: 0 <= i < |events| ==> inputs[i].event == events[i]
      ensures var run := RunOn(old(Model()), inputs);
              && Model() == run.session
              && (ok <==> run.death.None? && !cancelled && run.session.resultSeen && !run.session.resultFailed)
    {
      hide Handle;
      ghost var start := Model();
      var fatal;
      fatal, inputs := Drain(events);
      ok := fatal.None? && !cancelled && resultSeen && !resultFailed;
      ghost var n := |inputs|;
      ghost var rest := seq(|events| - n, j requires 0 <= j < |events| - n => Turn(events[n + j], Failed));
      DeadRunStays(start, inputs, rest);
      inputs := inputs + rest;
    }
  }

  /** A dead session handles nothing more. */
  lemma {:induction false} DeadRunStays(start: Session, inputs: seq<Turn>, rest: seq<Turn>)
    requires rest == [] || RunOn(start, inputs).death.Some?
    ensures RunOn(start, inputs + rest) == RunOn(start, inputs)
    decreases |rest|
  {
    hide Handle;
    if rest == [] {
      assert inputs + rest == inputs;
    } else {
      var front := rest[..|rest| - 1];
      DeadRunStays(start, inputs, front);
      assert (inputs + rest)[..|inputs + rest| - 1] == inputs + front;
    }
  }
}
