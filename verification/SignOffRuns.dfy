/** What holds over whole live sessions, for every stream of CLI events and every reviewer: no
    modification without approval, one response per request, and text and error counters that are
    functions of the history. */
module SignOffRuns {
  import opened WhiteSpace
  import opened Wrappers
  import opened Reviewer
  import opened LiveSession

  // ----- Approval comes first -----

  predicate IsApproval(a: Action) {
    a == Approval || a == Reviewed(Approved)
  }

  ghost predicate HasApproval(trace: seq<Action>) {
    trace != [] && (IsApproval(trace[|trace| - 1]) || HasApproval(trace[..|trace| - 1]))
  }

  ghost predicate HasRejection(trace: seq<Action>) {
    trace != [] && (trace[|trace| - 1] == Reviewed(Rejected) || HasRejection(trace[..|trace| - 1]))
  }

  predicate ChangesFiles(tool: string) {
    tool == "Write" || tool == "Edit" || tool == "MultiEdit" || tool == "NotebookEdit"
  }

  predicate AllowsMutation(a: Action) {
    a.Answered? && a.allow && ChangesFiles(a.tool)
  }

  /** A mutation is allowed only after an approval; a plan is shown only while none has been approved
      or rejected. */
  ghost predicate SafeNext(before: seq<Action>, a: Action) {
    && (AllowsMutation(a) ==> HasApproval(before))
    && (a.Reviewed? ==> !HasApproval(before) && !HasRejection(before))
  }

  ghost predicate Safe(trace: seq<Action>) {
    trace == [] || (Safe(trace[..|trace| - 1]) && SafeNext(trace[..|trace| - 1], trace[|trace| - 1]))
  }

  ghost predicate LatchInv(s: Session) {
    Safe(s.trace) && (s.approved <==> HasApproval(s.trace)) && (s.rejected <==> HasRejection(s.trace))
  }

  lemma Appended(trace: seq<Action>, a: Action)
    ensures Safe(trace + [a]) <==> Safe(trace) && SafeNext(trace, a)
    ensures HasApproval(trace + [a]) <==> HasApproval(trace) || IsApproval(a)
    ensures HasRejection(trace + [a]) <==> HasRejection(trace) || a == Reviewed(Rejected)
  {
    assert (trace + [a])[..|trace|] == trace;
  }

  lemma SendKeeps(s: Session, a: Action)
    requires LatchInv(s) && !a.Reviewed? && !a.Approval? && (AllowsMutation(a) ==> s.approved)
    ensures LatchInv(Send(s, a).0)
  {
    Appended(s.trace, a);
  }

  lemma GateKeeps(s: Session, tool: string, a: Answer)
    requires LatchInv(s)
    ensures LatchInv(CanUseTool(s, tool, a).0)
    ensures CanUseTool(s, tool, a).1 == Allow && tool in MUTATING_TOOLS ==> CanUseTool(s, tool, a).0.approved
  {
    Appended(s.trace, Reviewed(a));
  }

  lemma DeliverKeeps(s: Session, id: string, tool: string, decision: Decision)
    requires LatchInv(s) && (decision == Allow && tool in MUTATING_TOOLS ==> s.approved)
    ensures LatchInv(Deliver(s, id, tool, decision).0)
  {
    hide Send, SendInterrupt, LatchInv;
    SendKeeps(s, Answered(id, tool, decision == Allow));
    InterruptKeeps(Send(s, Answered(id, tool, decision == Allow)).0);
  }

  lemma InterruptKeeps(s: Session)
    requires LatchInv(s)
    ensures LatchInv(SendInterrupt(s).0)
  {
    hide Safe, HasApproval, HasRejection, Send;
    SendKeeps(s.(interrupts := s.interrupts + 1), Interrupt(s.interrupts + 1));
  }

  lemma ControlKeeps(s: Session, id: string, request: Option<Request>, a: Answer)
    requires LatchInv(s)
    ensures LatchInv(HandleControlRequest(s, id, request, a).0)
  {
    if request.Some? && id != "" {
      if request.value.subtype != "can_use_tool" {
        SendKeeps(s, Unsupported(id));
      } else {
        var tool := request.value.tool;
        GateKeeps(s.(protoErrs := 0), tool, a);
        var (t, decision) := CanUseTool(s.(protoErrs := 0), tool, a);
        DeliverKeeps(t, id, tool, decision);
      }
    }
  }

  lemma HandleKeeps(s: Session, e: Event, a: Answer)
    requires LatchInv(s)
    ensures LatchInv(Handle(s, e, a).0)
  {
    match e {
      case SharedApproval => Appended(s.trace, Approval);
      case Control(id, request) => ControlKeeps(s, id, request, a);
      case _ =>
    }
  }

  lemma {:induction false} RunKeepsLatches(pipe: nat, inputs: seq<Turn>)
    ensures LatchInv(RunOn(Start(pipe), inputs).session)
  {
    if inputs != [] {
      var before := RunOn(Start(pipe), inputs[..|inputs| - 1]);
      RunKeepsLatches(pipe, inputs[..|inputs| - 1]);
      HandleKeeps(before.session, inputs[|inputs| - 1].event, inputs[|inputs| - 1].answer);
    }
  }

  lemma {:induction false} SafeAt(trace: seq<Action>, i: nat)
    requires Safe(trace) && i < |trace|
    ensures SafeNext(trace[..i], trace[i])
  {
    if i < |trace| - 1 {
      SafeAt(trace[..|trace| - 1], i);
      assert trace[..|trace| - 1][..i] == trace[..i];
    }
  }

  /** The recursive predicates say what they seem to say. */
  lemma {:induction false} LatchesAreMembership(trace: seq<Action>)
    ensures HasApproval(trace) <==> exists i :: 0 <= i < |trace| && IsApproval(trace[i])
    ensures HasRejection(trace) <==> exists i :: 0 <= i < |trace| && trace[i] == Reviewed(Rejected)
  {
    if trace != [] {
      LatchesAreMembership(trace[..|trace| - 1]);
    }
  }

  /** In every run, an allow for a mutating tool is sent only after an approval. */
  lemma AllowNeedsApproval(pipe: nat, inputs: seq<Turn>, i: nat)
    requires var trace := RunOn(Start(pipe), inputs).session.trace; i < |trace| && AllowsMutation(trace[i])
    ensures exists j :: 0 <= j < i && IsApproval(RunOn(Start(pipe), inputs).session.trace[j])
  {
    var trace := RunOn(Start(pipe), inputs).session.trace;
    RunKeepsLatches(pipe, inputs);
    SafeAt(trace, i);
    LatchesAreMembership(trace[..i]);
    var j :| 0 <= j < i && IsApproval(trace[..i][j]);
    assert IsApproval(trace[j]);
  }

  /** After a rejection no plan is ever shown again, and a mutating tool is allowed only if another
      agent's plan was approved in between. */
  lemma RejectionLocks(pipe: nat, inputs: seq<Turn>, j: nat, i: nat)
    requires var trace := RunOn(Start(pipe), inputs).session.trace;
             j < i < |trace| && trace[j] == Reviewed(Rejected)
    ensures var trace := RunOn(Start(pipe), inputs).session.trace;
            !trace[i].Reviewed? && (AllowsMutation(trace[i]) ==> exists k :: j < k < i && trace[k] == Approval)
  {
    RunKeepsLatches(pipe, inputs);
    var trace := RunOn(Start(pipe), inputs).session.trace;
    NoReviewAfterRejection(trace, j, i);
    if AllowsMutation(trace[i]) {
      AllowNeedsApproval(pipe, inputs, i);
      var k :| 0 <= k < i && IsApproval(trace[k]);
      ApprovalAroundRejection(trace, j, k);
    }
  }

  lemma ApprovalAroundRejection(trace: seq<Action>, j: nat, k: nat)
    requires Safe(trace) && j < |trace| && k < |trace| && trace[j] == Reviewed(Rejected) && IsApproval(trace[k])
    ensures j < k && trace[k] == Approval
  {
    SafeAt(trace, j);
    LatchesAreMembership(trace[..j]);
    assert forall i :: 0 <= i < j ==> !IsApproval(trace[..j][i]);
    if j < k {
      NoReviewAfterRejection(trace, j, k);
    }
  }

  lemma NoReviewAfterRejection(trace: seq<Action>, j: nat, i: nat)
    requires Safe(trace) && j < i < |trace| && trace[j] == Reviewed(Rejected)
    ensures !trace[i].Reviewed?
  {
    SafeAt(trace, i);
    LatchesAreMembership(trace[..i]);
    assert trace[..i][j] == Reviewed(Rejected);
  }

  /** While rejected and not approved, every mutating request is denied without a prompt, or its
      answer cannot be written and the session dies. */
  lemma RejectedSessionDenies(pipe: nat, inputs: seq<Turn>, id: string, tool: string, a: Answer)
    requires var run := RunOn(Start(pipe), inputs);
             HasRejection(run.session.trace) && !HasApproval(run.session.trace)
    requires id != "" && ChangesFiles(tool)
    ensures var s := RunOn(Start(pipe), inputs).session;
            var (t, death) := Handle(s, Control(id, Some(Request("can_use_tool", tool))), a);
            if s.stdinClosed || s.pipe == 0 then t.trace == s.trace && death == Some(SendFailed)
            else t.trace == s.trace + [Answered(id, tool, false)] && death.None?
  {
    RunKeepsLatches(pipe, inputs);
  }

  // ----- How a request is answered -----

  /** A permission request, after any run: it is allowed exactly if the tool changes no files, a plan has been
      approved, or none has been rejected and the reviewer approves the plan shown now. The plan is shown exactly
      if the tool changes files, nothing is approved or rejected, and there is a text. After a rejection an
      interrupt follows. The session dies exactly if the review failed or stdin does not take a message. */
  lemma RequestAnswered(pipe: nat, inputs: seq<Turn>, id: string, tool: string, a: Answer)
    requires id != ""
    ensures var s := RunOn(Start(pipe), inputs).session;
            var (t, death) := Handle(s, Control(id, Some(Request("can_use_tool", tool))), a);
            var approved, rejected := HasApproval(s.trace), HasRejection(s.trace);
            var shown := ChangesFiles(tool) && !approved && !rejected && LatestAssistantText(s.text) != "";
            var allowed := !ChangesFiles(tool) || approved || (shown && a == Approved);
            var taken := if s.stdinClosed then 0 else s.pipe;
            var stop := shown && a == Rejected;
            && t.trace == s.trace + (if shown then [Reviewed(a)] else [])
                          + (if taken >= 1 then [Answered(id, tool, allowed)] else [])
                          + (if stop && taken >= 2 then [Interrupt(s.interrupts + 1)] else [])
            && death == if shown && a == Failed then Some(CallbackFailed)
                        else if taken < (if stop then 2 else 1) then Some(SendFailed)
                        else None
  {
    hide LatestAssistantText, Safe;
    RunKeepsLatches(pipe, inputs);
    var s := RunOn(Start(pipe), inputs).session;
    AnsweredFrom(s, id, tool, a);
  }

  lemma AnsweredFrom(s: Session, id: string, tool: string, a: Answer)
    requires id != ""
    ensures var (t, death) := Handle(s, Control(id, Some(Request("can_use_tool", tool))), a);
            var shown := ChangesFiles(tool) && !s.approved && !s.rejected && LatestAssistantText(s.text) != "";
            var allowed := !ChangesFiles(tool) || s.approved || (shown && a == Approved);
            var taken := if s.stdinClosed then 0 else s.pipe;
            var stop := shown && a == Rejected;
            && t.trace == s.trace + (if shown then [Reviewed(a)] else [])
                          + (if taken >= 1 then [Answered(id, tool, allowed)] else [])
                          + (if stop && taken >= 2 then [Interrupt(s.interrupts + 1)] else [])
            && death == if shown && a == Failed then Some(CallbackFailed)
                        else if taken < (if stop then 2 else 1) then Some(SendFailed)
                        else None
  {
    hide LatestAssistantText, CanUseTool, Deliver, ChangesFiles;
    ConsultedFrom(s.(protoErrs := 0), tool, a);
    var (t, decision) := CanUseTool(s.(protoErrs := 0), tool, a);
    DeliveredFrom(t, id, tool, decision);
  }

  lemma ConsultedFrom(s: Session, tool: string, a: Answer)
    ensures var (t, decision) := CanUseTool(s, tool, a);
            var shown := ChangesFiles(tool) && !s.approved && !s.rejected && LatestAssistantText(s.text) != "";
            && t.trace == s.trace + (if shown then [Reviewed(a)] else [])
            && t.stdinClosed == s.stdinClosed && t.pipe == s.pipe && t.interrupts == s.interrupts
            && (decision == Allow <==> !ChangesFiles(tool) || s.approved || (shown && a == Approved))
            && (decision == DenyAndInterrupt <==> shown && a == Rejected)
            && (decision == CallbackError <==> shown && a == Failed)
  {
    hide LatestAssistantText;
  }

  lemma DeliveredFrom(s: Session, id: string, tool: string, decision: Decision)
    ensures var (t, death) := Deliver(s, id, tool, decision);
            var taken := if s.stdinClosed then 0 else s.pipe;
            var stop := decision == DenyAndInterrupt;
            && t.trace == s.trace + (if taken >= 1 then [Answered(id, tool, decision == Allow)] else [])
                          + (if stop && taken >= 2 then [Interrupt(s.interrupts + 1)] else [])
            && death == if decision == CallbackError then Some(CallbackFailed)
                        else if taken < (if stop then 2 else 1) then Some(SendFailed)
                        else None
  {
  }

  // ----- A failing reviewer ends the session -----

  /** The end of a session whose review failed: at most the denial follows the failed review. */
  ghost predicate EndsDenied(trace: seq<Action>) {
    || (|trace| >= 1 && trace[|trace| - 1] == Reviewed(Failed))
    || (|trace| >= 2 && trace[|trace| - 2] == Reviewed(Failed)
          && trace[|trace| - 1].Answered? && !trace[|trace| - 1].allow)
  }

  ghost predicate FailureInv(run: Run) {
    if Reviewed(Failed) in run.session.trace
    then run.death == Some(CallbackFailed) && EndsDenied(run.session.trace)
    else run.death != Some(CallbackFailed)
  }

  lemma DeliverAfterReview(s: Session, id: string, tool: string, decision: Decision)
    requires Reviewed(Failed) in s.trace ==> decision == CallbackError && s.trace[|s.trace| - 1] == Reviewed(Failed)
    requires decision == CallbackError ==> Reviewed(Failed) in s.trace
    ensures var (t, death) := Deliver(s, id, tool, decision); FailureInv(Run(t, 0, death))
  {
  }

  lemma HandleFailure(s: Session, e: Event, a: Answer)
    requires Reviewed(Failed) !in s.trace
    ensures var (t, death) := Handle(s, e, a); FailureInv(Run(t, 0, death))
  {
    hide HandleControlRequest, FailureInv;
    match e {
      case Control(id, request) => ControlFailure(s, id, request, a);
      case _ => NoReviewNoFailure(s, e, a);
    }
  }

  lemma NoReviewNoFailure(s: Session, e: Event, a: Answer)
    requires Reviewed(Failed) !in s.trace && !e.Control?
    ensures var (t, death) := Handle(s, e, a); FailureInv(Run(t, 0, death))
  {
    hide HandleControlRequest;
  }

  lemma ControlFailure(s: Session, id: string, request: Option<Request>, a: Answer)
    requires Reviewed(Failed) !in s.trace
    ensures var (t, death) := HandleControlRequest(s, id, request, a); FailureInv(Run(t, 0, death))
  {
    hide Deliver, FailureInv, LatestAssistantText;
    var death := HandleControlRequest(s, id, request, a).1;
    if request.None? || id == "" {
      NothingReviewed(s.(protoErrs := s.protoErrs + 1), death);
    } else if request.value.subtype != "can_use_tool" {
      NothingReviewed(HandleControlRequest(s, id, request, a).0, death);
    } else {
      var (t, decision) := CanUseTool(s.(protoErrs := 0), request.value.tool, a);
      DeliverAfterReview(t, id, request.value.tool, decision);
    }
  }

  lemma NothingReviewed(t: Session, death: Option<Death>)
    requires Reviewed(Failed) !in t.trace && death != Some(CallbackFailed)
    ensures FailureInv(Run(t, 0, death))
  {
  }

  /** A failed review kills the session, and a denial is the last thing the CLI hears; if stdin
      still works, it does hear it. */
  lemma {:induction false} FailedReviewEndsSession(pipe: nat, inputs: seq<Turn>)
    ensures FailureInv(RunOn(Start(pipe), inputs))
  {
    if inputs != [] {
      var before, last := RunOn(Start(pipe), inputs[..|inputs| - 1]), inputs[|inputs| - 1];
      FailedReviewEndsSession(pipe, inputs[..|inputs| - 1]);
      if before.death.None? {
        HandleFailure(before.session, last.event, last.answer);
      }
    }
  }

  lemma FailedReviewIsDenied(s: Session, id: string, tool: string)
    requires id != "" && ChangesFiles(tool) && !s.approved && !s.rejected && LatestAssistantText(s.text) != ""
    ensures var (t, death) := Handle(s, Control(id, Some(Request("can_use_tool", tool))), Failed);
            && death == Some(CallbackFailed)
            && t.trace == s.trace + [Reviewed(Failed)]
                          + (if s.stdinClosed || s.pipe == 0 then [] else [Answered(id, tool, false)])
  {
  }

  // ----- One response per request, in order -----

  function RequestId(e: Event): seq<string> {
    if e.Control? && e.request.Some? && e.id != "" then [e.id] else []
  }

  function RequestIds(inputs: seq<Turn>): seq<string> {
    if inputs == [] then [] else RequestIds(inputs[..|inputs| - 1]) + RequestId(inputs[|inputs| - 1].event)
  }

  function ResponseIds(trace: seq<Action>): seq<string> {
    if trace == [] then []
    else
      var last := trace[|trace| - 1];
      ResponseIds(trace[..|trace| - 1]) +
        ResponseId(last)
  }

  function ResponseId(a: Action): seq<string> {
    match a
    case Answered(id, _, _) => [id]
    case Unsupported(id) => [id]
    case _ => []
  }

  lemma ResponseAppend(trace: seq<Action>, a: Action)
    ensures ResponseIds(trace + [a]) == ResponseIds(trace) + ResponseId(a)
  {
    assert (trace + [a])[..|trace|] == trace;
  }

  /** The request was answered, or stdin did not take the answer and the session died of it. */
  ghost predicate Responds(s: Session, t: Session, death: Option<Death>, id: seq<string>) {
    || ResponseIds(t.trace) == ResponseIds(s.trace) + id
    || (ResponseIds(t.trace) == ResponseIds(s.trace) && (t.stdinClosed || t.pipe == 0)
          && (death == Some(SendFailed) || death == Some(CallbackFailed)))
  }

  lemma SendResponds(s: Session, a: Action)
    ensures var (t, sent) := Send(s, a);
            if sent then ResponseIds(t.trace) == ResponseIds(s.trace) + ResponseId(a)
            else ResponseIds(t.trace) == ResponseIds(s.trace) && (t.stdinClosed || t.pipe == 0)
  {
    ResponseAppend(s.trace, a);
  }

  lemma InterruptAnswersNothing(s: Session)
    ensures ResponseIds(SendInterrupt(s).0.trace) == ResponseIds(s.trace)
  {
    ResponseAppend(s.trace, Interrupt(s.interrupts + 1));
  }

  lemma GateAnswersNothing(s: Session, tool: string, a: Answer)
    ensures ResponseIds(CanUseTool(s, tool, a).0.trace) == ResponseIds(s.trace)
  {
    ResponseAppend(s.trace, Reviewed(a));
  }

  lemma ControlResponds(s: Session, id: string, request: Option<Request>, a: Answer)
    ensures var (t, death) := HandleControlRequest(s, id, request, a);
            Responds(s, t, death, RequestId(Control(id, request)))
  {
    hide Send, SendInterrupt, CanUseTool, ResponseIds;
    if request.Some? && id != "" {
      var tool := request.value.tool;
      SendResponds(s, Unsupported(id));
      GateAnswersNothing(s.(protoErrs := 0), tool, a);
      var (t, decision) := CanUseTool(s.(protoErrs := 0), tool, a);
      SendResponds(t, Answered(id, tool, decision == Allow));
      InterruptAnswersNothing(Send(t, Answered(id, tool, decision == Allow)).0);
    }
  }

  lemma HandleResponds(s: Session, e: Event, a: Answer)
    ensures var (t, death) := Handle(s, e, a); Responds(s, t, death, RequestId(e))
  {
    match e {
      case Control(id, request) => ControlResponds(s, id, request, a);
      case SharedApproval => ResponseAppend(s.trace, Approval);
      case _ =>
    }
  }

  /** Every request handled got its response, or only the last did not and the session died. */
  ghost predicate AllAnswered(run: Run, inputs: seq<Turn>) {
    var n, ids := run.handled, ResponseIds(run.session.trace);
    && n <= |inputs| && (run.death.None? ==> n == |inputs|)
    && (ids == RequestIds(inputs[..n])
        || (n > 0 && ids == RequestIds(inputs[..n - 1]) && (run.session.stdinClosed || run.session.pipe == 0)
            && (run.death == Some(SendFailed) || run.death == Some(CallbackFailed))))
    && (run.death.None? ==> ids == RequestIds(inputs))
  }

  /** Each well-formed control request gets exactly one response with its id, in arrival order. Only
      the last request handled can miss its response: when stdin no longer takes writes, and then the
      session has died. */
  lemma {:induction false} OneResponsePerRequest(pipe: nat, inputs: seq<Turn>)
    ensures AllAnswered(RunOn(Start(pipe), inputs), inputs)
  {
    hide Handle;
    if inputs == [] {
      assert inputs[..0] == [];
    } else {
      var n := |inputs| - 1;
      var before := RunOn(Start(pipe), inputs[..n]);
      OneResponsePerRequest(pipe, inputs[..n]);
      if before.death.None? {
        assert inputs[..n + 1] == inputs;
        HandleResponds(before.session, inputs[n].event, inputs[n].answer);
      } else {
        assert inputs[..n][..before.handled] == inputs[..before.handled];
        assert before.handled > 0 ==> inputs[..n][..before.handled - 1] == inputs[..before.handled - 1];
      }
    }
  }

  // ----- Protocol errors -----

  predicate IsError(e: Event) {
    || e.Undecodable?
    || (e.Control? && (e.request.None? || e.id == "" || e.request.value.subtype != "can_use_tool"))
  }

  predicate IsReset(e: Event) {
    match e
    case System(isInit) => isInit
    case Assistant(_) => true
    case Control(_, _) => !IsError(e)
    case Result(_, _) => true
    case ControlAck => true
    case _ => false
  }

  /** Protocol errors since the last event that resets the count. */
  function ErrorsSince(inputs: seq<Turn>): nat {
    if inputs == [] then 0
    else
      var e := inputs[|inputs| - 1].event;
      if IsReset(e) then 0 else ErrorsSince(inputs[..|inputs| - 1]) + if IsError(e) then 1 else 0
  }

  /** Answering a request changes neither the error counter nor the plan text. */
  predicate SameCounters(s: Session, t: Session) {
    t.protoErrs == s.protoErrs && t.text == s.text
  }

  lemma SendFrame(s: Session, a: Action)
    ensures SameCounters(s, Send(s, a).0) && (Send(s, a).1 <==> !s.stdinClosed && s.pipe > 0)
  {
  }

  lemma GateFrame(s: Session, tool: string, a: Answer)
    ensures SameCounters(s, CanUseTool(s, tool, a).0)
  {
  }

  lemma InterruptFrame(s: Session)
    ensures SameCounters(s, SendInterrupt(s).0)
  {
  }

  lemma DeliverFrame(s: Session, id: string, tool: string, decision: Decision)
    ensures var (t, death) := Deliver(s, id, tool, decision); SameCounters(s, t) && death != Some(ProtocolDeath)
  {
    hide Send, SendInterrupt;
    SendFrame(s, Answered(id, tool, decision == Allow));
    InterruptFrame(Send(s, Answered(id, tool, decision == Allow)).0);
  }

  lemma ControlFrame(s: Session, id: string, request: Option<Request>, a: Answer)
    ensures var (t, death) := HandleControlRequest(s, id, request, a);
            && t.text == s.text
            && (death == Some(ProtocolDeath) <==>
                  IsError(Control(id, request)) && s.protoErrs >= 1
                  && (RequestId(Control(id, request)) != [] ==> !s.stdinClosed && s.pipe > 0))
            && (death.None? ==>
                  t.protoErrs <= 1 && t.protoErrs == if IsError(Control(id, request)) then s.protoErrs + 1 else 0)
  {
    hide Send, CanUseTool, Deliver;
    if request.Some? && id != "" {
      var tool := request.value.tool;
      SendFrame(s, Unsupported(id));
      GateFrame(s.(protoErrs := 0), tool, a);
      var (t, decision) := CanUseTool(s.(protoErrs := 0), tool, a);
      DeliverFrame(t, id, tool, decision);
    }
  }

  /** What one event does to the error counter. */
  lemma HandleErrors(s: Session, e: Event, a: Answer)
    requires s.protoErrs <= 1
    ensures var (t, death) := Handle(s, e, a);
            && (death.None? ==> t.protoErrs == (if IsReset(e) then 0 else s.protoErrs + if IsError(e) then 1 else 0))
            && (death.None? ==> t.protoErrs <= 1)
            && (death == Some(ProtocolDeath) <==>
                  IsError(e) && s.protoErrs == 1 && (RequestId(e) != [] ==> !s.stdinClosed && s.pipe > 0))
  {
    hide HandleControlRequest;
    if e.Control? {
      ControlFrame(s, e.id, e.request, a);
    }
  }

  /** A living session has seen at most one protocol error since the last reset; one that died of
      protocol errors has just seen the second. */
  lemma {:induction false} DiesOfTheSecondError(pipe: nat, inputs: seq<Turn>)
    ensures var run := RunOn(Start(pipe), inputs);
            && run.handled <= |inputs|
            && (run.death.None? ==>
                  run.handled == |inputs| && run.session.protoErrs == ErrorsSince(inputs) && ErrorsSince(inputs) <= 1)
            && (run.death == Some(ProtocolDeath) ==>
                  run.handled > 0 && IsError(inputs[run.handled - 1].event) && ErrorsSince(inputs[..run.handled]) == 2)
  {
    hide Handle;
    if inputs != [] {
      var n := |inputs| - 1;
      var before := RunOn(Start(pipe), inputs[..n]);
      DiesOfTheSecondError(pipe, inputs[..n]);
      if before.death.Some? {
        assert inputs[..n][..before.handled] == inputs[..before.handled];
      } else {
        HandleErrors(before.session, inputs[n].event, inputs[n].answer);
        assert inputs[..n + 1] == inputs;
      }
    }
  }

  /** And a living session dies of protocol errors at the next event exactly if it is the second
      error since the last reset, and the error reply it calls for, if any, can be written. */
  lemma SecondErrorIsFatalIff(pipe: nat, inputs: seq<Turn>, last: Turn)
    requires RunOn(Start(pipe), inputs).death.None?
    ensures var s := RunOn(Start(pipe), inputs).session;
            RunOn(Start(pipe), inputs + [last]).death == Some(ProtocolDeath) <==>
              && IsError(last.event) && ErrorsSince(inputs) == 1
              && (RequestId(last.event) != [] ==> !s.stdinClosed && s.pipe > 0)
  {
    hide Handle;
    DiesOfTheSecondError(pipe, inputs);
    HandleErrors(RunOn(Start(pipe), inputs).session, last.event, last.answer);
    assert (inputs + [last])[..|inputs|] == inputs;
  }

  /** The errors need not be consecutive: an event that is ignored between them does not help. */
  lemma ErrorsNeedNotBeConsecutive(pipe: nat, a: Answer)
    ensures var inputs := [Turn(Undecodable, a), Turn(Other, a), Turn(Undecodable, a)];
            RunOn(Start(pipe), inputs) == Run(Start(pipe).(protoErrs := 2), 3, Some(ProtocolDeath))
  {
    var inputs := [Turn(Undecodable, a), Turn(Other, a), Turn(Undecodable, a)];
    assert inputs[..2] == [Turn(Undecodable, a), Turn(Other, a)] && inputs[..2][..1] == [Turn(Undecodable, a)];
    assert [Turn(Undecodable, a)][..0] == [];
    assert RunOn(Start(pipe), inputs[..2][..1]) == Run(Start(pipe).(protoErrs := 1), 1, None);
  }

  // ----- Results -----

  function LastResult(inputs: seq<Turn>): (r: Option<Event>)
    ensures r.Some? ==> r.value.Result?
  {
    if inputs == [] then None
    else if inputs[|inputs| - 1].event.Result? then Some(inputs[|inputs| - 1].event)
    else LastResult(inputs[..|inputs| - 1])
  }

  /** The same result, and stdin open or closed as before. */
  predicate SameResult(s: Session, t: Session) {
    t.resultSeen == s.resultSeen && t.resultFailed == s.resultFailed && t.stdinClosed == s.stdinClosed
  }

  lemma ControlKeepsResult(s: Session, id: string, request: Option<Request>, a: Answer)
    ensures var (t, death) := HandleControlRequest(s, id, request, a);
            SameResult(s, t) && death != Some(BadResult)
  {
    hide CanUseTool, Deliver;
    if request.Some? && id != "" {
      var tool := request.value.tool;
      GateKeepsResult(s.(protoErrs := 0), tool, a);
      var (t, decision) := CanUseTool(s.(protoErrs := 0), tool, a);
      DeliverKeepsResult(t, id, tool, decision);
    }
  }

  lemma GateKeepsResult(s: Session, tool: string, a: Answer)
    ensures SameResult(s, CanUseTool(s, tool, a).0)
  {
    hide LatestAssistantText;
  }

  lemma DeliverKeepsResult(s: Session, id: string, tool: string, decision: Decision)
    ensures var (t, death) := Deliver(s, id, tool, decision); SameResult(s, t) && death != Some(BadResult)
  {
  }

  lemma HandleResult(s: Session, e: Event, a: Answer)
    ensures var (t, death) := Handle(s, e, a);
            && (!e.Result? ==> SameResult(s, t) && death != Some(BadResult))
            && (e.Result? && !e.decodable ==> death == Some(BadResult))
            && (e.Result? && e.decodable ==>
                  death.None? && t.resultSeen && t.resultFailed == e.failed && t.stdinClosed)
  {
    hide HandleControlRequest;
    if e.Control? {
      ControlKeepsResult(s, e.id, e.request, a);
    }
  }

  /** A living session has seen a result if and only if one came, has closed stdin since, and keeps whether the
      last one reported an error; a result that cannot be decoded has killed it. */
  lemma {:induction false} ResultsTell(pipe: nat, inputs: seq<Turn>)
    ensures var run, last := RunOn(Start(pipe), inputs), LastResult(inputs);
            run.death.None? ==>
              && (run.session.resultSeen <==> last.Some?) && (run.session.stdinClosed <==> last.Some?)
              && (if last.Some? then last.value.decodable && run.session.resultFailed == last.value.failed
                  else !run.session.resultFailed)
  {
    hide Handle;
    if inputs != [] {
      var before, last := RunOn(Start(pipe), inputs[..|inputs| - 1]), inputs[|inputs| - 1];
      ResultsTell(pipe, inputs[..|inputs| - 1]);
      HandleResult(before.session, last.event, last.answer);
    }
  }

  /** So a session succeeds if and only if nothing killed it and the last result reports no error. */
  lemma SucceedsIff(pipe: nat, inputs: seq<Turn>)
    ensures var run := RunOn(Start(pipe), inputs);
            run.death.None? && run.session.resultSeen && !run.session.resultFailed <==>
              run.death.None? && LastResult(inputs) == Some(Result(true, false))
  {
    ResultsTell(pipe, inputs);
  }

  // ----- The plan text -----

  function Messages(inputs: seq<Turn>): seq<Message> {
    if inputs == [] then []
    else
      var e := inputs[|inputs| - 1].event;
      Messages(inputs[..|inputs| - 1]) + if e.Assistant? && e.message.Some? then [e.message.value] else []
  }

  /** Where the last run of messages with one id begins. */
  function RunStart(h: seq<Message>): (i: nat)
    ensures i <= |h| && (h != [] ==> i < |h|)
  {
    if |h| <= 1 then 0
    else if h[|h| - 2].id == h[|h| - 1].id then RunStart(h[..|h| - 1])
    else |h| - 1
  }

  /** The text blocks of a message, of a run of messages, that have any text. */
  function BlockTexts(blocks: seq<Block>): seq<string> {
    if blocks == [] then []
    else
      var last := blocks[|blocks| - 1];
      BlockTexts(blocks[..|blocks| - 1]) + if last.isText && last.text != "" then [last.text] else []
  }

  function Texts(h: seq<Message>): seq<string> {
    if h == [] then [] else Texts(h[..|h| - 1]) + BlockTexts(h[|h| - 1].blocks)
  }

  /** The text of the last run of messages that has any, its blocks joined by newlines. */
  function LatestText(h: seq<Message>): string {
    if h == [] then ""
    else
      var i := RunStart(h);
      if Texts(h[i..]) != [] then JoinLines(Texts(h[i..])) else LatestText(h[..i])
  }

  ghost predicate NoneEmpty(texts: seq<string>) {
    forall t :: t in texts ==> t != ""
  }

  lemma JoinAppend(texts: seq<string>, t: string)
    requires NoneEmpty(texts) && t != ""
    ensures JoinLines(texts + [t]) == AddText(JoinLines(texts), t)
  {
    JoinEmptyIff(texts);
    assert (texts + [t])[..|texts|] == texts;
  }

  lemma {:induction false} BlockTextsNonEmpty(blocks: seq<Block>)
    ensures NoneEmpty(BlockTexts(blocks))
  {
    if blocks != [] {
      BlockTextsNonEmpty(blocks[..|blocks| - 1]);
    }
  }

  lemma {:induction false} AddBlocksJoins(texts: seq<string>, blocks: seq<Block>)
    requires NoneEmpty(texts)
    ensures AddBlocks(JoinLines(texts), blocks) == JoinLines(texts + BlockTexts(blocks))
  {
    hide JoinLines;
    if blocks == [] {
      assert texts + [] == texts;
    } else {
      var front, last := blocks[..|blocks| - 1], blocks[|blocks| - 1];
      AddBlocksJoins(texts, front);
      BlockTextsNonEmpty(front);
      if last.isText && last.text != "" {
        JoinAppend(texts + BlockTexts(front), last.text);
        assert texts + BlockTexts(blocks) == texts + BlockTexts(front) + [last.text];
      } else {
        assert BlockTexts(blocks) == BlockTexts(front);
      }
    }
  }

  lemma {:induction false} JoinEmptyIff(texts: seq<string>)
    requires NoneEmpty(texts)
    ensures JoinLines(texts) == "" <==> texts == []
  {
    if |texts| == 1 {
      assert texts[0] in texts;
    }
  }

  lemma {:induction false} TextsNonEmpty(h: seq<Message>)
    ensures NoneEmpty(Texts(h))
  {
    if h != [] {
      TextsNonEmpty(h[..|h| - 1]);
      BlockTextsNonEmpty(h[|h| - 1].blocks);
    }
  }

  /** The accumulated fields are functions of the message history. */
  ghost predicate TextInv(t: PlanText, h: seq<Message>) {
    var i := RunStart(h);
    && t.curMsgID == (if h == [] then "" else h[|h| - 1].id)
    && t.curText == JoinLines(Texts(h[i..]))
    && t.lastText == LatestText(h[..i])
  }

  lemma AccumulateKeeps(t: PlanText, h: seq<Message>, m: Message)
    requires TextInv(t, h)
    ensures TextInv(Accumulate(t, m), h + [m])
  {
    hide Accumulate, TextInv;
    if h != [] && m.id == h[|h| - 1].id {
      SameMessage(t, h, m);
    } else if h == [] && m.id == "" {
      FirstNameless(t, m);
      assert h + [m] == [m];
    } else {
      NewMessage(t, h, m);
    }
  }

  lemma FirstNameless(t: PlanText, m: Message)
    requires TextInv(t, []) && m.id == ""
    ensures TextInv(Accumulate(t, m), [m])
  {
    hide AddBlocks, BlockTexts, JoinLines;
    NothingSaid();
    AddBlocksJoins([], m.blocks);
    OneMessage(m);
    assert [m][0..] == [m] && [m][..0] == [];
  }

  lemma NothingSaid()
    ensures JoinLines([]) == "" && Texts([]) == [] && RunStart([]) == 0 && LatestText([]) == ""
  {
  }

  lemma NoMessages()
    ensures TextInv(Start(0).text, [])
  {
    NothingSaid();
  }

  lemma OneMessage(m: Message)
    ensures Texts([m]) == [] + BlockTexts(m.blocks) == BlockTexts(m.blocks) && RunStart([m]) == 0
  {
    assert [m][..0] == [];
  }

  /** One more event of the message in flight. */
  lemma SameMessage(t: PlanText, h: seq<Message>, m: Message)
    requires TextInv(t, h) && h != [] && m.id == h[|h| - 1].id
    ensures TextInv(Accumulate(t, m), h + [m])
  {
    hide AddBlocks, BlockTexts, JoinLines, LatestText;
    var i, more := RunStart(h), h + [m];
    assert more[..|h|] == h && RunStart(more) == i && more[..i] == h[..i];
    assert more[i..] == h[i..] + [m] && more[i..][..|h| - i] == h[i..];
    TextsNonEmpty(h[i..]);
    AddBlocksJoins(Texts(h[i..]), m.blocks);
  }

  /** A new message: what was in flight becomes the last text, if it is any. */
  lemma NewMessage(t: PlanText, h: seq<Message>, m: Message)
    requires TextInv(t, h) && m.id != (if h == [] then "" else h[|h| - 1].id)
    ensures TextInv(Accumulate(t, m), h + [m])
  {
    hide AddBlocks, BlockTexts, JoinLines, Texts;
    var i, more := RunStart(h), h + [m];
    assert more[..|h|] == h && RunStart(more) == |h| && more[|h|..] == [m];
    TextsNonEmpty(h[i..]);
    JoinEmptyIff(Texts(h[i..]));
    NothingSaid();
    OneMessage(m);
    AddBlocksJoins([], m.blocks);
    if h == [] {
      assert h[i..] == [];
    }
  }

  function TextAfter(t: PlanText, e: Event): PlanText {
    if e.Assistant? && e.message.Some? then Accumulate(t, e.message.value) else t
  }

  lemma HandleText(s: Session, e: Event, a: Answer)
    ensures Handle(s, e, a).0.text == TextAfter(s.text, e)
  {
    hide HandleControlRequest, Accumulate;
    if e.Control? {
      ControlFrame(s, e.id, e.request, a);
    }
  }

  lemma {:induction false} TextTracksHistory(pipe: nat, inputs: seq<Turn>)
    ensures var run := RunOn(Start(pipe), inputs);
            run.handled <= |inputs| && TextInv(run.session.text, Messages(inputs[..run.handled]))
            && (run.death.None? ==> run.handled == |inputs|)
  {
    hide Handle, TextInv, Accumulate;
    if inputs == [] {
      assert inputs[..0] == [];
      NoMessages();
    } else {
      var n := |inputs| - 1;
      var before, last := RunOn(Start(pipe), inputs[..n]), inputs[n];
      TextTracksHistory(pipe, inputs[..n]);
      assert inputs[..n][..before.handled] == inputs[..before.handled];
      if before.death.None? {
        assert inputs[..n + 1] == inputs;
        var h := Messages(inputs[..n]);
        HandleText(before.session, last.event, last.answer);
        if last.event.Assistant? && last.event.message.Some? {
          AccumulateKeeps(before.session.text, h, last.event.message.value);
        } else {
          assert h + [] == h;
        }
      }
    }
  }

  /** What the reviewer is shown as the plan is the trimmed text of the last run of same-id assistant
      messages that has text. */
  lemma PlanIsLatestText(pipe: nat, inputs: seq<Turn>)
    ensures var run := RunOn(Start(pipe), inputs);
            run.handled <= |inputs| &&
            LatestAssistantText(run.session.text) == TrimSpace(LatestText(Messages(inputs[..run.handled])))
  {
    TextTracksHistory(pipe, inputs);
    var run := RunOn(Start(pipe), inputs);
    var h := Messages(inputs[..run.handled]);
    TextsNonEmpty(h[RunStart(h)..]);
    JoinEmptyIff(Texts(h[RunStart(h)..]));
  }
}
