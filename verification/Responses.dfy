/** The tool loop over the Responses API (responses/responses.go): a conversation in which every request
    is chained to the response before it and must answer that response's function calls. The server,
    the tools, the budget and the loop's other stop conditions are arbitrary. */
module Responses {
  import opened Selections
  import opened SkillCatalog
  import opened SkillStack
  import WhiteSpace
  import opened Wrappers

  const MAX_INPUT_TOKENS: nat := 250_000
  const DEFAULT_ITERATIONS: nat := 100

  datatype Call = Call(id: string, name: string)
  datatype Item = FunctionCall(call: Call) | OtherItem
  datatype Response = Response(id: string, items: seq<Item>, text: string, inputTokens: nat)

  datatype Verdict = Run | UnknownTool | DeniedBySkill | DeniedReadOnly | DeniedSignOff
  datatype Content = Refusal(verdict: Verdict) | Skipped | ToolResult(text: string)
  datatype Output = Output(callId: string, content: Content)

  datatype Input = Prompt | Outputs(outputs: seq<Output>) | FinalPrompt
  datatype Request = Request(previous: Option<string>, input: Input, noTools: bool)
  datatype Exchange = Exchange(request: Request, reply: Option<Response>)

  /** What running a tool gave, and whether a plan was approved or a skill loaded by it. */
  datatype Handled = Handled(text: string, approves: bool, loads: Option<Entry>)

  /** The outside world of one run, with the skills that a resumed run starts with. Requests, tool calls
      and iterations are numbered from 0; a missing reply is a failed request. */
  datatype World = World(
    known: set<string>, readOnly: bool, signOff: bool, dirs: seq<Entry>,
    reply: nat -> Option<Response>,
    approvedBefore: nat -> bool,
    handled: nat -> Handled,
    repeats: nat -> bool,
    pastEditDeadline: nat -> bool,
    overBudget: nat -> bool,
    overBudgetAtEnd: bool)

  function CallsOf(items: seq<Item>): seq<Call> {
    if items == [] then []
    else CallsOf(items[..|items| - 1]) + match items[|items| - 1] case FunctionCall(c) => [c] case OtherItem => []
  }

  function Calls(r: Option<Response>): seq<Call> {
    if r.Some? then CallsOf(r.value.items) else []
  }

  method ExtractFunctionCalls(r: Response) returns (calls: seq<Call>)
    ensures calls == Calls(Some(r))
  {
    calls := [];
    for i := 0 to |r.items|
      invariant calls == CallsOf(r.items[..i])
    {
      assert r.items[..i + 1][..i] == r.items[..i];
      if r.items[i].FunctionCall? {
        calls := calls + [r.items[i].call];
      }
    }
    assert r.items[..|r.items|] == r.items;
  }

  function CallIn(item: Item): Option<Call> {
    if item.FunctionCall? then Some(item.call) else None
  }

  /** The calls are the function-call items, each once, in the order of the items. */
  lemma {:induction false} CallsInOrder(items: seq<Item>) returns (at: seq<nat>)
    ensures Picks(items, CallIn, CallsOf(items), at)
  {
    if items == [] {
      at := [];
      PicksNone(CallIn);
    } else {
      var front, last := items[..|items| - 1], items[|items| - 1];
      at := CallsInOrder(front);
      at := PicksOneMore(front, CallIn, CallsOf(front), at, last);
      assert front + [last] == items;
    }
  }

  // ----- The gates in front of a tool -----

  predicate IsMutating(name: string) {
    name == "Edit" || name == "MultiEdit" || name == "Write"
  }

  datatype Act = PlanApproved | Ran(name: string) | Refused(name: string)

  /** The approval latch, the loaded skills, the number of calls seen, and what happened so far. */
  datatype Gates = Gates(approved: bool, dirs: seq<Entry>, calls: nat, trace: seq<Act>)

  function Decide(w: World, g: Gates, name: string): Verdict {
    if name !in w.known then UnknownTool
    else if !Allows(g.dirs, name) then DeniedBySkill
    else if w.readOnly && IsMutating(name) then DeniedReadOnly
    else if w.signOff && !g.approved && IsMutating(name) then DeniedSignOff
    else Run
  }

  function Approve(g: Gates): Gates {
    g.(approved := true, trace := g.trace + [PlanApproved])
  }

  /** Another agent may have got a plan approved before the call is looked at. */
  function Meanwhile(w: World, g: Gates): Gates {
    if w.approvedBefore(g.calls) then Approve(g) else g
  }

  function AfterRun(g: Gates, name: string, h: Handled): Gates {
    var ran := g.(calls := g.calls + 1, trace := g.trace + [Ran(name)]);
    var loaded := if h.loads.Some? then ran.(dirs := Pushed(ran.dirs, h.loads.value)) else ran;
    if h.approves then Approve(loaded) else loaded
  }

  function HandleCall(w: World, before: Gates, c: Call): (Gates, Output) {
    var g := Meanwhile(w, before);
    var verdict := Decide(w, g, c.name);
    if verdict == Run then
      var h := w.handled(before.calls);
      (AfterRun(g, c.name, h), Output(c.id, ToolResult(h.text)))
    else
      (g.(calls := g.calls + 1, trace := g.trace + [Refused(c.name)]), Output(c.id, Refusal(verdict)))
  }

  function HandleCalls(w: World, g: Gates, calls: seq<Call>): (Gates, seq<Output>) {
    if calls == [] then (g, [])
    else
      var (before, outputs) := HandleCalls(w, g, calls[..|calls| - 1]);
      var (after, output) := HandleCall(w, before, calls[|calls| - 1]);
      (after, outputs + [output])
  }

  /** No plan is approved yet; the skills loaded before a resume are on the stack again. */
  function Opening(w: World): Gates {
    Gates(false, w.dirs, 0, [])
  }

  // ----- The conversation -----

  /** The gates after the calls of the first k responses have been handled. */
  function GatesAfter(w: World, k: nat): Gates {
    if k == 0 then Opening(w) else HandleCalls(w, GatesAfter(w, k - 1), Calls(w.reply(k - 1))).0
  }

  function IdOf(r: Option<Response>): string {
    if r.Some? then r.value.id else ""
  }

  function Initial(resume: string): Request {
    Request(if resume == "" then None else Some(resume), Prompt, false)
  }

  function FollowUp(w: World, k: nat): Request
    requires k > 0
  {
    Request(Some(IdOf(w.reply(k - 1))),
            Outputs(HandleCalls(w, GatesAfter(w, k - 1), Calls(w.reply(k - 1))).1), false)
  }

  /** The conversation of a loop that sent n follow-ups. */
  function LoopLog(w: World, resume: string, n: nat): seq<Exchange> {
    if n == 0 then [Exchange(Initial(resume), w.reply(0))]
    else LoopLog(w, resume, n - 1) + [Exchange(FollowUp(w, n), w.reply(n))]
  }

  lemma LoopStep(w: World, resume: string, k: nat)
    ensures LoopLog(w, resume, k + 1) == LoopLog(w, resume, k) + [Exchange(FollowUp(w, k + 1), w.reply(k + 1))]
    ensures GatesAfter(w, k + 1) == HandleCalls(w, GatesAfter(w, k), Calls(w.reply(k))).0
  {
  }

  function SkipAll(calls: seq<Call>): seq<Output> {
    if calls == [] then [] else SkipAll(calls[..|calls| - 1]) + [Output(calls[|calls| - 1].id, Skipped)]
  }

  datatype Exit = Quiet | Repeated | EditDeadline | Exhausted | FollowUpFailed | OverBudget | TokenCap

  /** Iteration j handled the calls of response j and got response j + 1. */
  ghost predicate Advances(w: World, maxIter: nat, j: nat) {
    && j < maxIter && Calls(w.reply(j)) != [] && !w.repeats(j) && !w.pastEditDeadline(j)
    && w.reply(j + 1).Some? && !w.overBudget(j + 1) && w.reply(j + 1).value.inputTokens <= 250_000
  }

  /** How iteration i ended the loop, if it did, and with which response. */
  ghost predicate StopsAt(w: World, maxIter: nat, i: nat, exit: Exit, n: nat) {
    var calling := i < maxIter && Calls(w.reply(i)) != [];
    var sending := calling && !w.repeats(i) && !w.pastEditDeadline(i);
    match exit
    case Exhausted => i == maxIter && n == i
    case Quiet => i < maxIter && !calling && n == i
    case Repeated => calling && w.repeats(i) && n == i
    case EditDeadline => calling && !w.repeats(i) && w.pastEditDeadline(i) && n == i
    case FollowUpFailed => sending && w.reply(i + 1).None? && n == i + 1
    case OverBudget => sending && w.reply(i + 1).Some? && w.overBudget(i + 1) && n == i + 1
    case TokenCap =>
      sending && w.reply(i + 1).Some? && !w.overBudget(i + 1)
      && w.reply(i + 1).value.inputTokens > 250_000 && n == i + 1
  }

  ghost predicate Stops(w: World, maxIter: nat, i: nat, exit: Exit, n: nat) {
    (forall j :: 0 <= j < i ==> Advances(w, maxIter, j)) && StopsAt(w, maxIter, i, exit, n)
  }

  datatype Failure =
    | InitialRequest | FollowUpRequest | BudgetExceeded | TokenCapReached | ResolveRequest | NoUsableText

  datatype Outcome = Text(text: string) | Error(failure: Failure, partial: string)

  /** The end of a run from a response without text: one last request, if it may be made. */
  ghost predicate FinalEnds(w: World, m: nat, before: seq<Exchange>, log: seq<Exchange>, outcome: Outcome) {
    var id := IdOf(w.reply(m));
    if w.overBudgetAtEnd || WhiteSpace.TrimSpace(id) == "" then
      log == before && outcome == Error(NoUsableText, "")
    else
      && log == before + [Exchange(Request(Some(id), FinalPrompt, true), w.reply(m + 1))]
      && outcome == if w.reply(m + 1).Some? && w.reply(m + 1).value.text != "" then Text(w.reply(m + 1).value.text)
                    else Error(NoUsableText, "")
  }

  function Resolve(w: World, n: nat): Exchange {
    Exchange(Request(Some(IdOf(w.reply(n))), Outputs(SkipAll(Calls(w.reply(n)))), true), w.reply(n + 1))
  }

  /** The end of a run after its loop: pending calls are answered with placeholders first. */
  ghost predicate LoopEnds(w: World, n: nat, before: seq<Exchange>, log: seq<Exchange>, outcome: Outcome)
    requires w.reply(n).Some?
  {
    if w.reply(n).value.text != "" then log == before && outcome == Text(w.reply(n).value.text)
    else if Calls(w.reply(n)) == [] then FinalEnds(w, n, before, log, outcome)
    else if w.reply(n + 1).None? then log == before + [Resolve(w, n)] && outcome == Error(ResolveRequest, "")
    else if w.reply(n + 1).value.text != "" then
      log == before + [Resolve(w, n)] && outcome == Text(w.reply(n + 1).value.text)
    else FinalEnds(w, n + 1, before + [Resolve(w, n)], log, outcome)
  }

  ghost predicate RunEnds(w: World, resume: string, exit: Exit, n: nat, log: seq<Exchange>, outcome: Outcome)
    requires exit != FollowUpFailed ==> w.reply(n).Some?
  {
    match exit
    case FollowUpFailed => log == LoopLog(w, resume, n) && outcome == Error(FollowUpRequest, "")
    case OverBudget => log == LoopLog(w, resume, n) && outcome == Error(BudgetExceeded, w.reply(n).value.text)
    case TokenCap => log == LoopLog(w, resume, n) && outcome == Error(TokenCapReached, w.reply(n).value.text)
    case _ => LoopEnds(w, n, LoopLog(w, resume, n), log, outcome)
  }

  /** How the loop of a run ended: in iteration i, with response n. */
  datatype LoopEnd = LoopEnd(exit: Exit, i: nat, n: nat)

  /** A run; its loop has no end if the initial request failed. */
  datatype RunRecord = RunRecord(
    w: World, maxIterations: int, end: Option<LoopEnd>, log: seq<Exchange>, outcome: Outcome)

  function Iterations(maxIterations: int): nat {
    if maxIterations <= 0 then 100 else maxIterations
  }

  /** What a run does that was started to continue from a recorded response. */
  ghost predicate RunHolds(r: RunRecord, resume: string) {
    match r.end
    case None =>
      r.w.reply(0).None? && r.log == LoopLog(r.w, resume, 0) && r.outcome == Error(InitialRequest, "")
    case Some(LoopEnd(exit, i, n)) =>
      && r.w.reply(0).Some? && Stops(r.w, Iterations(r.maxIterations), i, exit, n)
      && (exit != FollowUpFailed ==> r.w.reply(n).Some?)
      && RunEnds(r.w, resume, exit, n, r.log, r.outcome)
  }

  class ToolRun {
    const w: World
    var gates: Gates
    var log: seq<Exchange>

    constructor (w: World)
      ensures this.w == w && gates == Opening(w) && log == []
    {
      this.w := w;
      gates, log := Opening(w), [];
    }

    method Send(request: Request) returns (reply: Option<Response>)
      modifies this`log
      ensures reply == w.reply(|old(log)|) && log == old(log) + [Exchange(request, reply)]
    {
      reply := w.reply(|log|);
      log := log + [Exchange(request, reply)];
    }

    /** Runs or refuses every call of a response, in order, and builds one output for each. */
    method ExecuteAndBuildOutputs(calls: seq<Call>) returns (outputs: seq<Output>)
      modifies this`gates
      ensures (gates, outputs) == HandleCalls(w, old(gates), calls)
    {
      hide AfterRun, Allows, IsMutating;
      outputs := [];
      ghost var start := gates;
      for i := 0 to |calls|
        invariant (gates, outputs) == HandleCalls(w, start, calls[..i])
      {
        assert calls[..i + 1][..i] == calls[..i];
        var call := calls[i];
        var number := gates.calls;
        if w.approvedBefore(number) {
          gates := Approve(gates);
        }
        if call.name !in w.known {
          outputs := outputs + [Output(call.id, Refusal(UnknownTool))];
          gates := gates.(calls := number + 1, trace := gates.trace + [Refused(call.name)]);
          continue;
        }
        if !Allows(gates.dirs, call.name) {
          outputs := outputs + [Output(call.id, Refusal(DeniedBySkill))];
          gates := gates.(calls := number + 1, trace := gates.trace + [Refused(call.name)]);
          continue;
        }
        if w.readOnly && IsMutating(call.name) {
          outputs := outputs + [Output(call.id, Refusal(DeniedReadOnly))];
          gates := gates.(calls := number + 1, trace := gates.trace + [Refused(call.name)]);
          continue;
        }
        if w.signOff && !gates.approved && IsMutating(call.name) {
          outputs := outputs + [Output(call.id, Refusal(DeniedSignOff))];
          gates := gates.(calls := number + 1, trace := gates.trace + [Refused(call.name)]);
          continue;
        }
        var result := w.handled(number);
        gates := AfterRun(gates, call.name, result);
        outputs := outputs + [Output(call.id, ToolResult(result.text))];
      }
      assert calls[..|calls|] == calls;
    }

    method ToolLoop(first: Response, resume: string, maxIter: nat)
      returns (last: Option<Response>, exit: Exit, ghost i: nat, ghost n: nat)
      requires log == LoopLog(w, resume, 0) && gates == Opening(w) && w.reply(0) == Some(first)
      modifies this
      ensures Stops(w, maxIter, i, exit, n)
      ensures log == LoopLog(w, resume, n) && last == w.reply(n)
      ensures exit != FollowUpFailed ==> last.Some?
    {
      hide Advances, HandleCalls, LoopLog;
      last, exit, i, n := Some(first), Exhausted, 0, 0;
      for k := 0 to maxIter
        invariant forall j :: 0 <= j < k ==> Advances(w, maxIter, j)
        invariant log == LoopLog(w, resume, k) && gates == GatesAfter(w, k)
        invariant last == w.reply(k) && last.Some?
      {
        var stop;
        last, stop, n := Iterate(last.value, resume, maxIter, k);
        i := k;
        if stop.Some? {
          exit := stop.value;
          return;
        }
      }
      i, n := maxIter, maxIter;
    }

    /** One iteration: answers the calls of response k, unless something stops the loop. */
    method Iterate(resp: Response, resume: string, maxIter: nat, k: nat)
      returns (last: Option<Response>, stop: Option<Exit>, ghost n: nat)
      requires k < maxIter && log == LoopLog(w, resume, k) && gates == GatesAfter(w, k) && w.reply(k) == Some(resp)
      modifies this
      ensures log == LoopLog(w, resume, n) && last == w.reply(n)
      ensures stop != Some(FollowUpFailed) ==> last.Some?
      ensures stop.Some? ==> StopsAt(w, maxIter, k, stop.value, n)
      ensures stop.None? ==> n == k + 1 && Advances(w, maxIter, k) && gates == GatesAfter(w, n)
    {
      hide HandleCalls, CallsOf, LoopLog, GatesAfter;
      LoopLogLength(w, resume, k);
      LoopStep(w, resume, k);
      last, stop, n := Some(resp), None, k;
      var calls := ExtractFunctionCalls(resp);
      if |calls| == 0 {
        stop := Some(Quiet);
        return;
      }
      if w.repeats(k) {
        stop := Some(Repeated);
        return;
      }
      if w.pastEditDeadline(k) {
        stop := Some(EditDeadline);
        return;
      }
      var outputs := ExecuteAndBuildOutputs(calls);
      n := k + 1;
      last := Send(Request(Some(resp.id), Outputs(outputs), false));
      if last.None? {
        stop := Some(FollowUpFailed);
        return;
      }
      if w.overBudget(k + 1) {
        stop := Some(OverBudget);
        return;
      }
      if last.value.inputTokens > MAX_INPUT_TOKENS {
        stop := Some(TokenCap);
      }
    }

    method ResolvePendingCalls(last: Response, ghost n: nat) returns (resolved: Option<Response>, ghost m: nat)
      requires w.reply(n) == Some(last) && |log| == n + 1
      modifies this`log
      ensures if Calls(Some(last)) == [] then resolved == Some(last) && m == n && log == old(log)
              else m == n + 1 && resolved == w.reply(m) && log == old(log) + [Resolve(w, n)]
    {
      var calls := ExtractFunctionCalls(last);
      if |calls| == 0 {
        return Some(last), n;
      }
      var outputs := [];
      for k := 0 to |calls|
        invariant outputs == SkipAll(calls[..k])
      {
        assert calls[..k + 1][..k] == calls[..k];
        outputs := outputs + [Output(calls[k].id, Skipped)];
      }
      assert calls[..|calls|] == calls;
      m := n + 1;
      resolved := Send(Request(Some(last.id), Outputs(outputs), true));
    }

    method RequestFinal(last: Response, ghost m: nat) returns (outcome: Outcome)
      requires w.reply(m) == Some(last) && |log| == m + 1
      modifies this`log
      ensures FinalEnds(w, m, old(log), log, outcome)
    {
      if w.overBudgetAtEnd {
        return Error(NoUsableText, "");
      }
      if WhiteSpace.TrimSpace(last.id) == "" {
        return Error(NoUsableText, "");
      }
      var reply := Send(Request(Some(last.id), FinalPrompt, true));
      if reply.None? || reply.value.text == "" {
        return Error(NoUsableText, "");
      }
      outcome := Text(reply.value.text);
    }

    /** One run. `end` tells how its loop ended, unless the initial request failed. */
    method RunWithTools(resume: string, maxIterations: int) returns (outcome: Outcome, ghost end: Option<LoopEnd>)
      requires log == [] && gates == Opening(w)
      modifies this
      ensures RunHolds(RunRecord(w, maxIterations, end, log, outcome), resume)
      ensures forall k :: 0 <= k < |log| - 1 ==> Answers(log[k + 1], log[k])
      ensures |log| <= (if maxIterations <= 0 then 100 else maxIterations) + 3
    {
      hide Stops, LoopEnds, Answers;
      end := None;
      var maxIter := if maxIterations <= 0 then DEFAULT_ITERATIONS else maxIterations;
      var reply := Send(Initial(resume));
      if reply.None? {
        return Error(InitialRequest, ""), end;
      }
      var last, exit;
      ghost var i, n;
      last, exit, i, n := ToolLoop(reply.value, resume, maxIter);
      end := Some(LoopEnd(exit, i, n));
      LoopLogLength(w, resume, n);
      match exit {
        case FollowUpFailed => outcome := Error(FollowUpRequest, "");
        case OverBudget => outcome := Error(BudgetExceeded, last.value.text);
        case TokenCap => outcome := Error(TokenCapReached, last.value.text);
        case _ =>
          outcome := Finish(last.value, n);
      }
      RunWellChained(RunRecord(w, maxIterations, end, log, outcome), resume);
    }

    method Finish(last: Response, ghost n: nat) returns (outcome: Outcome)
      requires w.reply(n) == Some(last) && |log| == n + 1
      modifies this`log
      ensures LoopEnds(w, n, old(log), log, outcome)
    {
      if last.text != "" {
        return Text(last.text);
      }
      var resolved;
      ghost var m;
      resolved, m := ResolvePendingCalls(last, n);
      if resolved.None? {
        return Error(ResolveRequest, "");
      }
      if resolved.value.text != "" {
        return Text(resolved.value.text);
      }
      outcome := RequestFinal(resolved.value, m);
    }
  }

  lemma {:induction false} LoopLogLength(w: World, resume: string, n: nat)
    ensures |LoopLog(w, resume, n)| == n + 1
    ensures LoopLog(w, resume, n)[n].reply == w.reply(n) && (LoopLog(w, resume, n)[n].request.noTools ==> false)
  {
    if n > 0 {
      LoopLogLength(w, resume, n - 1);
    }
  }

  /** How a run ends, told by the last response it got: it succeeds with the text of that response if there is
      any, unless a limit had stopped the loop on it, and then the text is only partial. */
  lemma OutcomeIff(r: RunRecord, resume: string)
    requires RunHolds(r, resume)
    ensures r.log != []
    ensures var last := r.log[|r.log| - 1].reply;
            var text := if last.Some? then last.value.text else "";
            var limited := r.end.Some? && r.end.value.exit in {OverBudget, TokenCap};
            && (r.outcome.Text? <==> text != "" && !limited)
            && (r.outcome.Text? ==> r.outcome.text == text)
            && (r.outcome.Error? ==> r.outcome.partial == if limited then text else "")
  {
    hide CallsOf, LoopLog;
    LoopLogLength(r.w, resume, if r.end.Some? then r.end.value.n else 0);
  }

  /** A last request for text is sent if and only if the loop and the answers to pending calls gave none, the
      budget allows it, and the response to chain it to has an id that is not blank. */
  lemma FinalRequestIff(r: RunRecord, resume: string)
    requires RunHolds(r, resume) && r.end.Some? && r.end.value.exit in {Quiet, Repeated, EditDeadline, Exhausted}
    ensures r.log != []
    ensures var n := r.end.value.n;
            var m := if Calls(r.w.reply(n)) == [] then n else n + 1;
            r.log[|r.log| - 1].request.input == FinalPrompt <==>
              && r.w.reply(n).Some? && r.w.reply(n).value.text == ""
              && r.w.reply(m).Some? && r.w.reply(m).value.text == ""
              && !r.w.overBudgetAtEnd && !WhiteSpace.AllSpace(r.w.reply(m).value.id)
  {
    hide CallsOf, LoopLog, Stops, WhiteSpace.TrimSpace, WhiteSpace.AllSpace;
    var n := r.end.value.n;
    LastOfLoop(r.w, resume, n);
    WhiteSpace.NothingLeftIff(IdOf(r.w.reply(n)));
    WhiteSpace.NothingLeftIff(IdOf(r.w.reply(n + 1)));
  }

  lemma LastOfLoop(w: World, resume: string, n: nat)
    ensures |LoopLog(w, resume, n)| == n + 1 && LoopLog(w, resume, n)[n].request.input != FinalPrompt
  {
    LoopLogLength(w, resume, n);
  }

  /** Response j is answered: it came and has calls, there is an iteration left for it, none of its tools was
      called too often or an edit was due, and, unless it is the first, the budget and the tokens allow it. */
  ghost predicate GoesOn(w: World, maxIter: nat, j: nat) {
    && j < maxIter && w.reply(j).Some? && Calls(w.reply(j)) != [] && !w.repeats(j) && !w.pastEditDeadline(j)
    && (j > 0 ==> !w.overBudget(j) && w.reply(j).value.inputTokens <= 250_000)
  }

  /** The loop of a run sends a follow-up for a response if and only if this one and all before it are to be
      answered. */
  lemma FollowUpSentIff(r: RunRecord, resume: string, k: nat)
    requires RunHolds(r, resume) && r.end.Some?
    ensures var max := if r.maxIterations <= 0 then 100 else r.maxIterations;
            k < r.end.value.n <==> forall j: nat :: j <= k ==> GoesOn(r.w, max, j)
  {
    hide CallsOf, RunEnds;
    var w, max := r.w, Iterations(r.maxIterations);
    var LoopEnd(exit, i, n) := r.end.value;
    forall j: nat | j < i ensures GoesOn(w, max, j) {
      assert Advances(w, max, j) && (j > 0 ==> Advances(w, max, j - 1));
    }
    assert i > 0 ==> Advances(w, max, i - 1);
    assert n == i + 1 ==> GoesOn(w, max, i);
    assert !GoesOn(w, max, n);
  }

  // ----- Every call is answered exactly once -----

  function Ids(outputs: seq<Output>): seq<string> {
    if outputs == [] then [] else Ids(outputs[..|outputs| - 1]) + [outputs[|outputs| - 1].callId]
  }

  function CallIds(calls: seq<Call>): seq<string> {
    if calls == [] then [] else CallIds(calls[..|calls| - 1]) + [calls[|calls| - 1].id]
  }

  /** A request chained to a response answers its calls, one output each, in order; or it is the
      final request, and then the response has none or was not allowed to have any. */
  ghost predicate Answers(e: Exchange, before: Exchange) {
    && before.reply.Some? && e.request.previous == Some(before.reply.value.id)
    && match e.request.input
       case Prompt => false
       case Outputs(outputs) => Calls(before.reply) != [] && Ids(outputs) == CallIds(Calls(before.reply))
       case FinalPrompt => e.request.noTools && (Calls(before.reply) != [] ==> before.request.noTools)
  }

  ghost predicate WellChained(log: seq<Exchange>) {
    |log| <= 1 || (WellChained(log[..|log| - 1]) && Answers(log[|log| - 1], log[|log| - 2]))
  }

  lemma {:induction false} OneOutputPerCall(w: World, g: Gates, calls: seq<Call>)
    ensures Ids(HandleCalls(w, g, calls).1) == CallIds(calls)
  {
    hide HandleCall;
    if calls != [] {
      var front, last := calls[..|calls| - 1], calls[|calls| - 1];
      OneOutputPerCall(w, g, front);
      var (before, outputs) := HandleCalls(w, g, front);
      var output := HandleCall(w, before, last).1;
      SameId(w, before, last);
      assert (outputs + [output])[..|outputs|] == outputs;
    }
  }

  lemma SameId(w: World, g: Gates, c: Call)
    ensures HandleCall(w, g, c).1.callId == c.id
  {
  }

  lemma {:induction false} SkippedIds(calls: seq<Call>)
    ensures Ids(SkipAll(calls)) == CallIds(calls)
    ensures forall o :: o in SkipAll(calls) ==> o.content == Skipped
  {
    if calls != [] {
      var front := calls[..|calls| - 1];
      SkippedIds(front);
      assert SkipAll(calls)[..|SkipAll(calls)| - 1] == SkipAll(front);
    }
  }

  lemma Extend(log: seq<Exchange>, e: Exchange)
    requires log != [] && WellChained(log) && Answers(e, log[|log| - 1])
    ensures WellChained(log + [e])
  {
    assert (log + [e])[..|log|] == log;
  }

  lemma {:induction false} LoopWellChained(w: World, resume: string, maxIter: nat, n: nat)
    requires w.reply(0).Some?
    requires forall j :: 0 <= j < n - 1 ==> Advances(w, maxIter, j)
    requires n > 0 ==> Calls(w.reply(n - 1)) != []
    ensures WellChained(LoopLog(w, resume, n))
  {
    hide HandleCalls, CallsOf;
    if n > 0 {
      assert n > 1 ==> Advances(w, maxIter, n - 2);
      LoopWellChained(w, resume, maxIter, n - 1);
      LoopLogLength(w, resume, n - 1);
      OneOutputPerCall(w, GatesAfter(w, n - 1), Calls(w.reply(n - 1)));
      Extend(LoopLog(w, resume, n - 1), Exchange(FollowUp(w, n), w.reply(n)));
    }
  }

  lemma FinalWellChained(w: World, m: nat, before: seq<Exchange>, log: seq<Exchange>, outcome: Outcome)
    requires before != [] && WellChained(before) && before[|before| - 1].reply == w.reply(m) && w.reply(m).Some?
    requires Calls(w.reply(m)) != [] ==> before[|before| - 1].request.noTools
    requires FinalEnds(w, m, before, log, outcome)
    ensures WellChained(log) && |log| <= |before| + 1
  {
    hide CallsOf;
    if log != before {
      Extend(before, log[|log| - 1]);
    }
  }

  lemma EndWellChained(w: World, n: nat, before: seq<Exchange>, log: seq<Exchange>, outcome: Outcome)
    requires before != [] && WellChained(before) && before[|before| - 1].reply == w.reply(n) && w.reply(n).Some?
    requires LoopEnds(w, n, before, log, outcome)
    ensures WellChained(log) && |log| <= |before| + 2
  {
    hide CallsOf, FinalEnds;
    if w.reply(n).value.text == "" {
      if Calls(w.reply(n)) == [] {
        FinalWellChained(w, n, before, log, outcome);
      } else {
        SkippedIds(Calls(w.reply(n)));
        Extend(before, Resolve(w, n));
        if w.reply(n + 1).Some? && w.reply(n + 1).value.text == "" {
          FinalWellChained(w, n + 1, before + [Resolve(w, n)], log, outcome);
        }
      }
    }
  }

  /** Every run: each request chained to a response with calls carries exactly one output per call,
      and there are at most three requests more than iterations. */
  lemma RunWellChained(r: RunRecord, resume: string)
    requires RunHolds(r, resume)
    ensures forall k :: 0 <= k < |r.log| - 1 ==> Answers(r.log[k + 1], r.log[k])
    ensures |r.log| <= Iterations(r.maxIterations) + 3
  {
    hide CallsOf, HandleCalls, LoopEnds, LoopLog, Stops, Answers, WellChained;
    LoopLogLength(r.w, resume, 0);
    if r.end.Some? {
      var LoopEnd(exit, i, n) := r.end.value;
      FollowUpsAnswerCalls(r.w, Iterations(r.maxIterations), i, exit, n);
      LoopWellChained(r.w, resume, Iterations(r.maxIterations), n);
      LoopLogLength(r.w, resume, n);
      if exit in {Exhausted, Quiet, Repeated, EditDeadline} {
        EndWellChained(r.w, n, LoopLog(r.w, resume, n), r.log, r.outcome);
      }
      forall k | 0 <= k < |r.log| - 1 ensures Answers(r.log[k + 1], r.log[k]) {
        WellChainedAt(r.log, k);
      }
    }
  }

  lemma FollowUpsAnswerCalls(w: World, maxIter: nat, i: nat, exit: Exit, n: nat)
    requires Stops(w, maxIter, i, exit, n)
    ensures n <= maxIter && (n > 0 ==> Calls(w.reply(n - 1)) != [])
    ensures forall j :: 0 <= j < n - 1 ==> Advances(w, maxIter, j)
  {
    hide CallsOf;
    assert n > 0 && n == i ==> Advances(w, maxIter, n - 1);
  }

  lemma {:induction false} WellChainedAt(log: seq<Exchange>, k: nat)
    requires WellChained(log) && k + 1 < |log|
    ensures Answers(log[k + 1], log[k])
  {
    hide Answers;
    if k + 2 < |log| {
      WellChainedAt(log[..|log| - 1], k);
    }
  }

  // ----- No mutating tool runs past its gates -----

  ghost predicate HasPlan(trace: seq<Act>) {
    trace != [] && (trace[|trace| - 1] == PlanApproved || HasPlan(trace[..|trace| - 1]))
  }

  /** A mutating tool that ran was not in readonly mode, and came after an approval where sign-off
      is required. */
  ghost predicate Permitted(w: World, before: seq<Act>, a: Act) {
    a.Ran? && IsMutating(a.name) ==> !w.readOnly && (w.signOff ==> HasPlan(before))
  }

  ghost predicate SafeTrace(w: World, trace: seq<Act>) {
    trace == [] ||
    (SafeTrace(w, trace[..|trace| - 1]) && Permitted(w, trace[..|trace| - 1], trace[|trace| - 1]))
  }

  ghost predicate GateInv(w: World, g: Gates) {
    SafeTrace(w, g.trace) && (g.approved <==> HasPlan(g.trace))
  }

  lemma TraceGrows(w: World, trace: seq<Act>, a: Act)
    ensures SafeTrace(w, trace + [a]) <==> SafeTrace(w, trace) && Permitted(w, trace, a)
    ensures HasPlan(trace + [a]) <==> HasPlan(trace) || a == PlanApproved
  {
    assert (trace + [a])[..|trace|] == trace;
  }

  lemma CallKeepsGates(w: World, before: Gates, c: Call)
    requires GateInv(w, before)
    ensures GateInv(w, HandleCall(w, before, c).0) && before.dirs <= HandleCall(w, before, c).0.dirs
  {
    hide Decide, AfterRun;
    TraceGrows(w, before.trace, PlanApproved);
    var g := Meanwhile(w, before);
    assert GateInv(w, g);
    if Decide(w, g, c.name) == Run {
      RunPermitted(w, g, c.name);
      RunKeepsGates(w, g, c.name, w.handled(before.calls));
    } else {
      TraceGrows(w, g.trace, Refused(c.name));
    }
  }

  lemma RunPermitted(w: World, g: Gates, name: string)
    requires GateInv(w, g) && Decide(w, g, name) == Run
    ensures Permitted(w, g.trace, Ran(name))
  {
    hide Allows;
  }

  lemma RunKeepsGates(w: World, g: Gates, name: string, h: Handled)
    requires GateInv(w, g) && Permitted(w, g.trace, Ran(name))
    ensures GateInv(w, AfterRun(g, name, h)) && g.dirs <= AfterRun(g, name, h).dirs
  {
    hide OnStack, Permitted, SafeTrace, HasPlan;
    TraceGrows(w, g.trace, Ran(name));
    TraceGrows(w, g.trace + [Ran(name)], PlanApproved);
    assert Permitted(w, g.trace + [Ran(name)], PlanApproved) by { NotARun(w, g.trace + [Ran(name)]); }
  }

  lemma NotARun(w: World, trace: seq<Act>)
    ensures Permitted(w, trace, PlanApproved)
  {
  }

  lemma {:induction false} CallsKeepGates(w: World, g: Gates, calls: seq<Call>)
    requires GateInv(w, g)
    ensures GateInv(w, HandleCalls(w, g, calls).0) && g.dirs <= HandleCalls(w, g, calls).0.dirs
  {
    hide GateInv, HandleCall;
    if calls != [] {
      CallsKeepGates(w, g, calls[..|calls| - 1]);
      CallKeepsGates(w, HandleCalls(w, g, calls[..|calls| - 1]).0, calls[|calls| - 1]);
    }
  }

  lemma {:induction false} SafeTraceAt(w: World, trace: seq<Act>, i: nat)
    requires SafeTrace(w, trace) && i < |trace|
    ensures Permitted(w, trace[..i], trace[i])
  {
    if i < |trace| - 1 {
      SafeTraceAt(w, trace[..|trace| - 1], i);
      assert trace[..|trace| - 1][..i] == trace[..i];
    }
  }

  lemma {:induction false} PlanIsMember(trace: seq<Act>)
    ensures HasPlan(trace) <==> exists j :: 0 <= j < |trace| && trace[j] == PlanApproved
  {
    if trace != [] {
      PlanIsMember(trace[..|trace| - 1]);
    }
  }

  lemma {:induction false} GatesSafe(w: World, k: nat)
    ensures GateInv(w, GatesAfter(w, k))
  {
    hide HandleCalls;
    if k > 0 {
      GatesSafe(w, k - 1);
      CallsKeepGates(w, GatesAfter(w, k - 1), Calls(w.reply(k - 1)));
    }
  }

  /** Whatever the model asks for in whatever order, a mutating tool runs only outside readonly mode
      and, where sign-off is required, only after a plan was approved. */
  lemma MutationNeedsApproval(w: World, k: nat, i: nat)
    requires var trace := GatesAfter(w, k).trace;
             i < |trace| && trace[i].Ran? && trace[i].name in ["Edit", "MultiEdit", "Write"]
    ensures !w.readOnly
    ensures w.signOff ==> exists j :: 0 <= j < i && GatesAfter(w, k).trace[j] == PlanApproved
  {
    var trace := GatesAfter(w, k).trace;
    GatesSafe(w, k);
    SafeTraceAt(w, trace, i);
    PlanIsMember(trace[..i]);
    assert forall j :: 0 <= j < i ==> trace[..i][j] == trace[j];
  }

  /** A tool that the loaded skills deny stays denied for the rest of the run. */
  lemma {:induction false} SkillDenialLasts(w: World, k: nat, later: nat, name: string)
    requires k <= later && !Allows(GatesAfter(w, k).dirs, name)
    ensures GatesAfter(w, k).dirs <= GatesAfter(w, later).dirs && !Allows(GatesAfter(w, later).dirs, name)
    decreases later
  {
    hide HandleCalls;
    if k < later {
      SkillDenialLasts(w, k, later - 1, name);
      GatesSafe(w, later - 1);
      CallsKeepGates(w, GatesAfter(w, later - 1), Calls(w.reply(later - 1)));
      assert forall e :: e in GatesAfter(w, k).dirs ==> e in GatesAfter(w, later).dirs;
    }
  }

  // ----- Which calls run -----

  /** Some loaded skill restricts the tools and does not list this one. */
  ghost predicate Forbids(dirs: seq<Entry>, name: string) {
    && name != "Skill"
    && exists e :: e in dirs && e.manifest.Some? && e.manifest.value.allowedTools != []
                   && name !in e.manifest.value.allowedTools
  }

  /** The gates when the call with number j of response k is looked at. */
  function GatesAt(w: World, k: nat, j: nat): Gates
    requires j <= |Calls(w.reply(k))|
  {
    HandleCalls(w, GatesAfter(w, k), Calls(w.reply(k))[..j]).0
  }

  function OutputsOf(w: World, k: nat): seq<Output> {
    HandleCalls(w, GatesAfter(w, k), Calls(w.reply(k))).1
  }

  /** What stands in the way of a call, in the order in which the gates are asked. */
  ghost predicate Blocked(w: World, g: Gates, name: string, why: Verdict) {
    var mutates := name in ["Edit", "MultiEdit", "Write"];
    var approved := PlanApproved in g.trace || w.approvedBefore(g.calls);
    match why
    case Run => false
    case UnknownTool => name !in w.known
    case DeniedBySkill => name in w.known && Forbids(g.dirs, name)
    case DeniedReadOnly => name in w.known && !Forbids(g.dirs, name) && w.readOnly && mutates
    case DeniedSignOff =>
      name in w.known && !Forbids(g.dirs, name) && !w.readOnly && w.signOff && !approved && mutates
  }

  /** The call runs: it is known, no loaded skill forbids it, and, if it changes files, the run is not
      readonly and a plan was approved where that is required. */
  ghost predicate MayRun(w: World, g: Gates, name: string) {
    && name in w.known && !Forbids(g.dirs, name)
    && (name in ["Edit", "MultiEdit", "Write"] ==>
          !w.readOnly && (w.signOff ==> PlanApproved in g.trace || w.approvedBefore(g.calls)))
  }

  /** What happens around a call: an approval by another agent, the call, and an approval by the call. */
  function ActsOf(w: World, g: Gates, name: string, ran: bool): seq<Act> {
    (if w.approvedBefore(g.calls) then [PlanApproved] else [])
    + [if ran then Ran(name) else Refused(name)]
    + (if ran && w.handled(g.calls).approves then [PlanApproved] else [])
  }

  /** The skills on the stack after a call: one more if the call loaded one that has a directory of its own. */
  ghost predicate StackAfter(before: seq<Entry>, loads: Option<Entry>, after: seq<Entry>) {
    if loads.Some? && loads.value.dir != "" && forall e :: e in before ==> e.dir != loads.value.dir
    then after == before + [loads.value]
    else after == before
  }

  lemma ForbidsIff(dirs: seq<Entry>, name: string)
    ensures Forbids(dirs, name) <==> !Allows(dirs, name)
  {
  }

  lemma PlanInTrace(trace: seq<Act>)
    ensures HasPlan(trace) <==> PlanApproved in trace
  {
    PlanIsMember(trace);
  }

  lemma StackAfterPush(before: seq<Entry>, e: Entry)
    ensures StackAfter(before, Some(e), Pushed(before, e))
  {
  }

  /** One call, from any gates whose latch agrees with the trace. */
  lemma CallRunsIff(w: World, g: Gates, c: Call)
    requires g.approved <==> PlanApproved in g.trace
    ensures var (after, output) := HandleCall(w, g, c);
            var ran, h := MayRun(w, g, c.name), w.handled(g.calls);
            && output.callId == c.id
            && (ran ==> output.content == ToolResult(h.text))
            && (!ran ==> output.content.Refusal? && Blocked(w, g, c.name, output.content.verdict))
            && after.trace == g.trace + ActsOf(w, g, c.name, ran)
            && after.calls == g.calls + 1
            && StackAfter(g.dirs, if ran then h.loads else None, after.dirs)
  {
    hide Forbids, Allows, OnStack, Pushed, StackAfter;
    ForbidsIff(g.dirs, c.name);
    var h := w.handled(g.calls);
    if h.loads.Some? {
      StackAfterPush(g.dirs, h.loads.value);
    }
    assert StackAfter(g.dirs, None, g.dirs) by { NothingPushed(g.dirs); }
  }

  lemma NothingPushed(dirs: seq<Entry>)
    ensures StackAfter(dirs, None, dirs)
  {
  }

  /** The gates and outputs at call j are those of handling the calls before it. */
  lemma {:induction false} OutputAt(w: World, g: Gates, calls: seq<Call>, j: nat)
    requires j < |calls|
    ensures |HandleCalls(w, g, calls).1| == |calls|
    ensures HandleCalls(w, g, calls).1[j] == HandleCall(w, HandleCalls(w, g, calls[..j]).0, calls[j]).1
    ensures HandleCalls(w, g, calls[..j + 1]).0 == HandleCall(w, HandleCalls(w, g, calls[..j]).0, calls[j]).0
  {
    hide HandleCall;
    var n := |calls| - 1;
    assert calls[..j + 1][..j] == calls[..j];
    OutputCount(w, g, calls[..n]);
    if j < n {
      OutputAt(w, g, calls[..n], j);
      assert calls[..n][..j] == calls[..j] && calls[..n][..j + 1] == calls[..j + 1];
    }
  }

  lemma {:induction false} OutputCount(w: World, g: Gates, calls: seq<Call>)
    ensures |HandleCalls(w, g, calls).1| == |calls|
  {
    hide HandleCall;
    if calls != [] {
      OutputCount(w, g, calls[..|calls| - 1]);
    }
  }

  lemma LatchIsTrace(w: World, k: nat, j: nat)
    requires j <= |Calls(w.reply(k))|
    ensures GatesAt(w, k, j).approved <==> PlanApproved in GatesAt(w, k, j).trace
  {
    hide HandleCalls, SafeTrace, HasPlan, CallsOf;
    GatesSafe(w, k);
    CallsKeepGates(w, GatesAfter(w, k), Calls(w.reply(k))[..j]);
    PlanInTrace(GatesAt(w, k, j).trace);
  }

  /** In every run, each call of each response runs if and only if it is known, the skills on the stack at that
      moment allow it, and, if it changes files, the run is not readonly and a plan was approved where that is
      required. If it does not run it is refused for the first of these that is not so. */
  lemma ToolRunsIff(w: World, k: nat, j: nat)
    requires j < |Calls(w.reply(k))|
    ensures |OutputsOf(w, k)| == |Calls(w.reply(k))|
    ensures var c, g, after := Calls(w.reply(k))[j], GatesAt(w, k, j), GatesAt(w, k, j + 1);
            var ran, output := MayRun(w, g, c.name), OutputsOf(w, k)[j];
            && output.callId == c.id
            && (ran ==> output.content == ToolResult(w.handled(g.calls).text))
            && (!ran ==> output.content.Refusal? && Blocked(w, g, c.name, output.content.verdict))
            && after.trace == g.trace + ActsOf(w, g, c.name, ran)
            && StackAfter(g.dirs, if ran then w.handled(g.calls).loads else None, after.dirs)
  {
    hide HandleCalls, HandleCall, CallsOf, MayRun, Blocked, StackAfter;
    LatchIsTrace(w, k, j);
    OutputAt(w, GatesAfter(w, k), Calls(w.reply(k)), j);
    CallRunsIff(w, GatesAt(w, k, j), Calls(w.reply(k))[j]);
  }

  /** While a tool is forbidden, it does not run, and the calls of it are refused. */
  ghost predicate NeverRan(from: nat, trace: seq<Act>, name: string) {
    forall i :: from <= i < |trace| ==> trace[i] != Ran(name)
  }

  lemma {:induction false} ForbiddenCalls(w: World, g: Gates, calls: seq<Call>, name: string)
    requires GateInv(w, g) && Forbids(g.dirs, name)
    ensures var (after, outputs) := HandleCalls(w, g, calls);
            && GateInv(w, after) && g.dirs <= after.dirs && Forbids(after.dirs, name)
            && g.trace <= after.trace && NeverRan(|g.trace|, after.trace, name)
            && |outputs| == |calls|
            && forall j :: 0 <= j < |calls| && calls[j].name == name ==> outputs[j].content.Refusal?
  {
    hide GateInv, HandleCall, Forbids;
    if calls != [] {
      var front, c := calls[..|calls| - 1], calls[|calls| - 1];
      ForbiddenCalls(w, g, front, name);
      ForbiddenCall(w, HandleCalls(w, g, front).0, c, name);
    }
  }

  lemma ForbiddenCall(w: World, g: Gates, c: Call, name: string)
    requires GateInv(w, g) && Forbids(g.dirs, name)
    ensures var (after, output) := HandleCall(w, g, c);
            && GateInv(w, after) && g.dirs <= after.dirs && Forbids(after.dirs, name)
            && g.trace <= after.trace && NeverRan(|g.trace|, after.trace, name)
            && (c.name == name ==> output.content.Refusal?)
  {
    hide HandleCall, SafeTrace, HasPlan, StackAfter, Blocked;
    CallKeepsGates(w, g, c);
    PlanInTrace(g.trace);
    CallRunsIff(w, g, c);
    assert Forbids(HandleCall(w, g, c).0.dirs, name);
  }

  /** Once the loaded skills forbid a tool, it is not run for the rest of the run, and every call of it is
      refused. */
  lemma {:induction false} ForbiddenNeverRuns(w: World, k: nat, later: nat, name: string)
    requires k <= later && Forbids(GatesAfter(w, k).dirs, name)
    ensures Forbids(GatesAfter(w, later).dirs, name)
    ensures GatesAfter(w, k).trace <= GatesAfter(w, later).trace
    ensures NeverRan(|GatesAfter(w, k).trace|, GatesAfter(w, later).trace, name)
    ensures |OutputsOf(w, later)| == |Calls(w.reply(later))|
    ensures forall j :: 0 <= j < |Calls(w.reply(later))| && Calls(w.reply(later))[j].name == name ==>
              OutputsOf(w, later)[j].content.Refusal?
    decreases later
  {
    hide HandleCalls, Forbids, CallsOf, GateInv;
    if k < later {
      ForbiddenNeverRuns(w, k, later - 1, name);
      GatesSafe(w, later - 1);
      ForbiddenCalls(w, GatesAfter(w, later - 1), Calls(w.reply(later - 1)), name);
    }
    GatesSafe(w, later);
    ForbiddenCalls(w, GatesAfter(w, later), Calls(w.reply(later)), name);
  }

  // ----- What a resumed session meets -----

  /** The response whose id a run records, to be chained to on resume: the last one its loop received.
      Placeholder and final requests are not recorded. */
  function Recorded(w: World, exit: Exit, n: nat): Option<Response> {
    if exit == FollowUpFailed && n > 0 then w.reply(n - 1) else w.reply(n)
  }

  /** A run of a session, and in which process: the first one or a resume. Tasks, shards and stages are runs
      of their process, and record into the same session. */
  datatype SessionRun = SessionRun(process: nat, run: RunRecord)

  /** The run that recorded last. */
  function Recorder(runs: seq<SessionRun>): Option<RunRecord> {
    if runs == [] then None
    else if runs[|runs| - 1].run.end.Some? then Some(runs[|runs| - 1].run)
    else Recorder(runs[..|runs| - 1])
  }

  /** The response that a session would be resumed from. */
  function Head(runs: seq<SessionRun>): Option<Response> {
    if runs == [] then None
    else
      var r := runs[|runs| - 1].run;
      match r.end
      case None => Head(runs[..|runs| - 1])
      case Some(LoopEnd(exit, _, n)) => Recorded(r.w, exit, n)
  }

  /** The runs of earlier processes. */
  function Earlier(runs: seq<SessionRun>, process: nat): seq<SessionRun> {
    if runs == [] || runs[|runs| - 1].process < process then runs else Earlier(runs[..|runs| - 1], process)
  }

  /** The runs of a session, process by process, those of one process in the order of what they recorded last.
      Each continues from what the session had recorded when its process began. */
  ghost predicate IsSession(runs: seq<SessionRun>) {
    runs == [] ||
    (var front, last := runs[..|runs| - 1], runs[|runs| - 1];
     && IsSession(front) && (front != [] ==> front[|front| - 1].process <= last.process)
     && RunHolds(last.run, IdOf(Head(Earlier(front, last.process)))))
  }

  function Joined(runs: seq<SessionRun>): seq<Exchange> {
    if runs == [] then [] else Joined(runs[..|runs| - 1]) + runs[|runs| - 1].run.log
  }

  /** The server names every response, and no two alike. */
  ghost predicate DistinctIds(log: seq<Exchange>) {
    && (forall j :: 0 <= j < |log| && log[j].reply.Some? ==> log[j].reply.value.id != "")
    && forall j, k :: 0 <= j < k < |log| && log[j].reply.Some? && log[k].reply.Some? ==>
                        log[j].reply.value.id != log[k].reply.value.id
  }

  /** The request is chained to a response with calls and answers none of them. */
  ghost predicate MeetsPending(log: seq<Exchange>, j: nat) {
    && j < |log| && log[j].request.input.Prompt?
    && exists k: nat :: k < j && log[k].reply.Some? && Calls(log[k].reply) != []
                     && log[j].request.previous == Some(log[k].reply.value.id)
  }

  ghost predicate Clean(log: seq<Exchange>) {
    forall j: nat :: !MeetsPending(log, j)
  }

  /** The run left its loop through the check for calls, or a limit stopped it on a response that has
      none; or its initial request failed and recorded nothing. */
  predicate EndsCallFree(r: RunRecord) {
    match r.end
    case None => true
    case Some(LoopEnd(exit, _, n)) =>
      exit == Quiet || (exit in {Exhausted, OverBudget, TokenCap} && Calls(r.w.reply(n)) == [])
  }

  lemma RecordedIsCallFree(r: RunRecord, resume: string)
    requires RunHolds(r, resume) && r.end.Some?
    ensures Calls(Recorded(r.w, r.end.value.exit, r.end.value.n)) == [] <==> EndsCallFree(r)
  {
    hide CallsOf, RunEnds, LoopLog;
  }

  lemma {:induction false} LoopLogAt(w: World, resume: string, n: nat, k: nat)
    requires k <= n
    ensures |LoopLog(w, resume, n)| == n + 1 && LoopLog(w, resume, n)[k].reply == w.reply(k)
    ensures LoopLog(w, resume, n)[0].request == Initial(resume)
  {
    hide FollowUp;
    if n > 0 {
      LoopLogAt(w, resume, n - 1, if k < n then k else 0);
    }
  }

  lemma LogStartsWithLoop(r: RunRecord, resume: string)
    requires RunHolds(r, resume)
    ensures LoopLog(r.w, resume, if r.end.Some? then r.end.value.n else 0) <= r.log
  {
    hide CallsOf, LoopLog, Stops;
  }

  /** Only the first request of a run is a prompt, and it continues from what was recorded. */
  lemma PromptIsFirst(r: RunRecord, resume: string)
    requires RunHolds(r, resume)
    ensures r.log != [] && r.log[0].request == Initial(resume)
    ensures forall j :: 0 < j < |r.log| ==> !r.log[j].request.input.Prompt?
  {
    hide RunHolds, LoopLog;
    LogStartsWithLoop(r, resume);
    LoopLogAt(r.w, resume, if r.end.Some? then r.end.value.n else 0, 0);
    RunWellChained(r, resume);
    forall j | 0 < j < |r.log| ensures !r.log[j].request.input.Prompt? {
      assert Answers(r.log[j - 1 + 1], r.log[j - 1]);
    }
  }

  lemma {:induction false} EarlierIsPrefix(runs: seq<SessionRun>, process: nat)
    requires IsSession(runs)
    ensures IsSession(Earlier(runs, process)) && Joined(Earlier(runs, process)) <= Joined(runs)
  {
    hide RunHolds;
    if runs != [] && runs[|runs| - 1].process >= process {
      EarlierIsPrefix(runs[..|runs| - 1], process);
    }
  }

  /** What the session recorded is a reply of its log. */
  lemma {:induction false} HeadIsInLog(runs: seq<SessionRun>) returns (k: nat)
    requires IsSession(runs) && Head(runs).Some?
    ensures k < |Joined(runs)| && Joined(runs)[k].reply == Head(runs)
  {
    hide LoopLog, RunEnds, Stops;
    var front, last := runs[..|runs| - 1], runs[|runs| - 1].run;
    if last.end.None? {
      k := HeadIsInLog(front);
    } else {
      var resume, n := IdOf(Head(Earlier(front, runs[|runs| - 1].process))), last.end.value.n;
      var m := if last.end.value.exit == FollowUpFailed && n > 0 then n - 1 else n;
      LogStartsWithLoop(last, resume);
      LoopLogAt(last.w, resume, n, m);
      k := |Joined(front)| + m;
    }
  }

  /** The recorded response has no calls exactly if the run that recorded it ended call-free. */
  lemma {:induction false} HeadIsCallFreeIff(runs: seq<SessionRun>)
    requires IsSession(runs)
    ensures Calls(Head(runs)) == [] <==> Recorder(runs).None? || EndsCallFree(Recorder(runs).value)
  {
    hide RunHolds, EndsCallFree, CallsOf;
    if runs != [] {
      var front, last := runs[..|runs| - 1], runs[|runs| - 1];
      if last.run.end.Some? {
        RecordedIsCallFree(last.run, IdOf(Head(Earlier(front, last.process))));
      } else {
        HeadIsCallFreeIff(front);
      }
    }
  }

  /** A further run keeps the joined log clean exactly if what it continues from has no calls. */
  lemma RunKeepsClean(runs: seq<SessionRun>, from: seq<SessionRun>, r: RunRecord)
    requires IsSession(from) && Joined(from) <= Joined(runs) && RunHolds(r, IdOf(Head(from)))
    requires DistinctIds(Joined(runs) + r.log)
    ensures Clean(Joined(runs) + r.log) <==> Clean(Joined(runs)) && Calls(Head(from)) == []
  {
    hide IsSession, RunHolds, Head, Joined, CallsOf;
    var resume, log, all := IdOf(Head(from)), Joined(runs), Joined(runs) + r.log;
    PromptIsFirst(r, resume);
    forall j: nat | j < |log| ensures MeetsPending(all, j) <==> MeetsPending(log, j) {
      assert forall k :: 0 <= k < |log| ==> all[k] == log[k];
    }
    forall j: nat | |log| < j < |all| ensures !MeetsPending(all, j) {
      assert all[j] == r.log[j - |log|];
    }
    FirstMeets(from, r, log, all);
    if Clean(log) && Calls(Head(from)) == [] {
      assert Clean(all);
    } else if Calls(Head(from)) != [] {
      assert MeetsPending(all, |log|);
    } else {
      var j: nat :| j < |log| && MeetsPending(log, j);
      assert MeetsPending(all, j);
    }
  }

  lemma FirstMeets(from: seq<SessionRun>, r: RunRecord, log: seq<Exchange>, all: seq<Exchange>)
    requires IsSession(from) && Joined(from) <= log && all == log + r.log && DistinctIds(all)
    requires r.log != [] && r.log[0].request == Initial(IdOf(Head(from)))
    ensures MeetsPending(all, |log|) <==> Calls(Head(from)) != []
  {
    hide IsSession, Head, Joined, CallsOf;
    assert all[|log|] == r.log[0];
    assert forall k :: 0 <= k < |log| ==> all[k] == log[k];
    if Head(from).Some? {
      var k := HeadIsInLog(from);
      assert all[k].reply == Head(from);
    }
  }

  /** The run k starts in a process before which the session was last recorded by a run that ended
      call-free, or by none. */
  ghost predicate StartsCallFree(runs: seq<SessionRun>, k: nat)
    requires k < |runs|
  {
    var recorder := Recorder(Earlier(runs[..k], runs[k].process));
    recorder.None? || EndsCallFree(recorder.value)
  }

  /** Over any session, every first request is chained to a response without calls if and only if every
      process was begun when the last run to record, of whatever agent, had ended call-free. */
  lemma {:induction false} ResumeMeetsPendingIff(runs: seq<SessionRun>)
    requires IsSession(runs) && DistinctIds(Joined(runs))
    ensures Clean(Joined(runs)) <==> forall k :: 0 <= k < |runs| ==> StartsCallFree(runs, k)
  {
    hide Clean, CallsOf, RunHolds, EndsCallFree, Recorder, Earlier, DistinctIds;
    if runs == [] {
      NoneIsClean();
    } else {
      var front, last := runs[..|runs| - 1], runs[|runs| - 1];
      var from := Earlier(front, last.process);
      FrontIsDistinct(Joined(front), last.run.log);
      ResumeMeetsPendingIff(front);
      EarlierIsPrefix(front, last.process);
      RunKeepsClean(front, from, last.run);
      HeadIsCallFreeIff(from);
      StartsOfFront(runs);
      assert StartsCallFree(runs, |front|) <==> Calls(Head(from)) == [];
    }
  }

  lemma StartsOfFront(runs: seq<SessionRun>)
    requires runs != []
    ensures var front := runs[..|runs| - 1];
            (forall k :: 0 <= k < |runs| ==> StartsCallFree(runs, k)) <==>
              (forall k :: 0 <= k < |front| ==> StartsCallFree(front, k)) && StartsCallFree(runs, |front|)
  {
    hide StartsCallFree;
    var front := runs[..|runs| - 1];
    forall k | 0 <= k < |front| ensures StartsCallFree(front, k) <==> StartsCallFree(runs, k) {
      StartsAlike(runs, k);
    }
  }

  lemma StartsAlike(runs: seq<SessionRun>, k: nat)
    requires k < |runs| - 1
    ensures StartsCallFree(runs[..|runs| - 1], k) <==> StartsCallFree(runs, k)
  {
    hide EndsCallFree, Recorder, Earlier;
    assert runs[..|runs| - 1][..k] == runs[..k];
  }

  lemma NoneIsClean()
    ensures Clean([])
  {
  }

  lemma FrontIsDistinct(a: seq<Exchange>, b: seq<Exchange>)
    requires DistinctIds(a + b)
    ensures DistinctIds(a)
  {
    assert forall k :: 0 <= k < |a| ==> (a + b)[k] == a[k];
  }

  /** Even a successful run can leave its session so: it returns the text of a response whose calls
      are never answered, and whatever run continues the session meets them. */
  lemma SuccessLeavesCallsPending(w: World, next: RunRecord)
    requires w.reply(0) == Some(Response("r0", [FunctionCall(Call("c0", "Read"))], "", 0))
    requires w.reply(1) == Some(Response("r1", [FunctionCall(Call("c1", "Read"))], "partial", 0))
    requires !w.repeats(0) && !w.pastEditDeadline(0) && !w.overBudget(1) && RunHolds(next, "r1")
    ensures var run := RunRecord(w, 1, Some(LoopEnd(Exhausted, 1, 1)), LoopLog(w, "", 1), Text("partial"));
            var session := [SessionRun(0, run), SessionRun(1, next)];
            && IsSession(session[..1]) && IsSession(session)
            && Joined(session) == run.log + next.log && MeetsPending(Joined(session), 2)
  {
    hide RunHolds, LoopLog, IsSession, Joined;
    var run := RunRecord(w, 1, Some(LoopEnd(Exhausted, 1, 1)), LoopLog(w, "", 1), Text("partial"));
    OneItem(FunctionCall(Call("c0", "Read")));
    OneItem(FunctionCall(Call("c1", "Read")));
    StopsExhausted(w);
    TwoRuns(SessionRun(0, run), SessionRun(1, next));
    assert [SessionRun(0, run), SessionRun(1, next)][..1] == [SessionRun(0, run)];
    PromptIsFirst(next, "r1");
    LoopLogAt(w, "", 1, 1);
    assert (run.log + next.log)[2] == next.log[0] && (run.log + next.log)[1] == run.log[1];
  }

  /** A run and its task record into one session: where the task records last, a resume continues the task's
      conversation and not that of the run. */
  lemma TaskTakesTheSession(run: SessionRun, task: SessionRun)
    requires run.process == task.process == 0 && RunHolds(run.run, "") && RunHolds(task.run, "")
    requires run.run.end.Some? && task.run.end.Some? && DistinctIds(run.run.log + task.run.log)
    ensures IsSession([run, task]) && Head([run, task]).Some? && Head([run]).Some?
    ensures IdOf(Head([run, task])) != IdOf(Head([run]))
    ensures exists e :: e in task.run.log && e.reply == Head([run, task])
  {
    hide RunHolds;
    OneRun(run);
    OneRun(task);
    assert [run, task][..1] == [run] && Earlier([run], 0) == [] && Head([]) == None;
    RecordsSomething(run.run);
    RecordsSomething(task.run);
    assert Head([run, task]) == Head([task]);
    var i := HeadIsInLog([run]);
    var j := HeadIsInLog([task]);
    assert (run.run.log + task.run.log)[i] == run.run.log[i];
    assert (run.run.log + task.run.log)[|run.run.log| + j] == task.run.log[j];
  }

  lemma RecordsSomething(r: RunRecord)
    requires RunHolds(r, "") && r.end.Some?
    ensures Recorded(r.w, r.end.value.exit, r.end.value.n).Some?
  {
    hide CallsOf, LoopLog, RunEnds;
  }

  lemma OneRun(r: SessionRun)
    requires RunHolds(r.run, "")
    ensures IsSession([r]) && Joined([r]) == r.run.log
  {
    hide RunHolds;
    assert [r][..0] == [] && Earlier([], r.process) == [] && Head([]) == None;
    assert IsSession([]) && Joined([]) == [];
  }

  lemma StopsExhausted(w: World)
    requires w.reply(0).Some? && Calls(w.reply(0)) != [] && w.reply(1).Some? && w.reply(1).value.inputTokens == 0
    requires w.reply(1).value.text == "partial" && !w.repeats(0) && !w.pastEditDeadline(0) && !w.overBudget(1)
    ensures RunHolds(RunRecord(w, 1, Some(LoopEnd(Exhausted, 1, 1)), LoopLog(w, "", 1), Text("partial")), "")
  {
    hide CallsOf, LoopLog;
    assert Advances(w, 1, 0);
  }

  lemma TwoRuns(r: SessionRun, next: SessionRun)
    requires r.process < next.process && RunHolds(r.run, "") && RunHolds(next.run, IdOf(Head([r])))
    ensures IsSession([r]) && IsSession([r, next]) && Joined([r, next]) == r.run.log + next.run.log
  {
    hide RunHolds;
    OneRun(r);
    assert [r, next][..1] == [r] && Earlier([r], next.process) == [r];
  }

  lemma OneItem(item: Item)
    requires item.FunctionCall?
    ensures CallsOf([item]) == [item.call]
  {
    assert [item][..0] == [];
  }
}
