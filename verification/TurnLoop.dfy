/** One agent turn: `run_turn` of `cockpit/backend/app/llm.py`. The model's replies, the tool
    results, the sub-agents' answers and the operator's stop button are arbitrary inputs. */
module TurnLoop {
  import opened Lists
  import opened Orchestrate

  const HIRO_ROUNDS := 8
  const CODE_ROUNDS := 16
  const MUTATORS := {"repo_edit", "repo_write", "repo_bash", "iframe_write", "preview_serve"}
  const TERMINAL := {"done", "timeout", "error"}
  const SHORT_DONE := "Svar på under 8 setninger. DONE / NEEDS_INPUT / BLOCKED. Ingen essay. Ingen nye tools."
  const NUDGE_DONE := "Verifikasjon OK. Hvis oppgaven er ferdig: svar DONE uten tools. "
    + "Ett fiks-kall bare hvis noe konkret mangler. Ikke grep/glob mer."
  const NUDGE_WRITE := "Du har lest nok. Skriv fila nå med repo_write (ny fil) eller repo_edit (patch). "
    + "Ikke glob/grep/read mer. Ikke spør om git-URL med mindre operator sa git clone. "
    + "Fyll hull selv: mappe, filnavn, ferdig artifact + preview."
  const JOB_DONE := "Jobben er ferdig og stoppet. Ikke start en ny. Rutine er cron/timer. Svar operator nå."
  const CAP_TEXT := "(tool-tak nådd — svar ut fra det som er lest)"

  /** Message content: a string, the dump of a tool result, or the excerpt of a sub-agent. */
  datatype Body = Str(text: string) | Dump(result: Result) | Excerpt(agent: string, answer: string)

  datatype Message =
    | System(sys: string)
    | User(body: Body)
    | Assistant(text: string, callIds: seq<string>)
    | Tool(callId: string, body: Body)

  /** The answer of a dispatched sub-agent: none to run, its text, or an exception. */
  datatype Sub = NoAgent | Answer(agent: string, answer: string) | Raises

  /** One requested call with the result it will get. `wellFormed` is false when it is not an object. */
  datatype Call = Call(wellFormed: bool, id: string, name: string, action: string, result: Result, sub: Sub)

  datatype Reply = Cancelled | Failed | Final(text: string) | Calls(text: string, calls: seq<Call>)

  /** What the world does in one round: a stop before the request, then the reply. */
  datatype Input = Input(stopped: bool, reply: Reply)

  datatype Config = Config(
    agentId: string, codeDesk: bool, agentTools: seq<string>, registry: seq<string>,
    useTools: bool, useMemory: bool, depth: nat, sys: string, prior: seq<(string, string)>, user: string)

  datatype State = State(
    messages: seq<Message>, tools: seq<string>, names: Option<seq<string>>,
    didMutate: bool, brake: Brake)

  datatype Request = Request(messages: seq<Message>, offered: seq<string>, last: bool)

  datatype Outcome = Answered(text: string) | Stopped | Raised | OutOfRounds

  // ----- Tools on offer

  /** `openai_tools`: the registered tools that are allowed; an empty list allows all. */
  function OpenaiTools(registry: seq<string>, names: Option<seq<string>>): seq<string> {
    var allow := names.GetOr([]);
    if allow == [] then registry else Filter((t: string) => t in allow, registry)
  }

  function Keep(names: Option<seq<string>>): seq<string> {
    Filter((n: string) => n in WRITE_KEEP, names.GetOr([]))
  }

  /** Only the writing tools stay; nothing is offered when none remains. */
  function Narrow(cfg: Config, st: State): State {
    var names := Keep(st.names);
    st.(names := Some(names),
        tools := if cfg.useTools && !cfg.useMemory && names != [] then OpenaiTools(cfg.registry, Some(names)) else [],
        messages := st.messages + [User(Str(NUDGE_WRITE))])
  }

  // ----- Conversations

  /** The ids of tool calls that still lack their tool message; `None` when the order is broken. */
  function Unanswered(ms: seq<Message>): Option<seq<string>> {
    if ms == [] then Some([]) else
      var before := Unanswered(ms[..|ms| - 1]);
      if before.None? then None else
        match ms[|ms| - 1]
        case Assistant(_, ids) => if before.value == [] then Some(ids) else None
        case Tool(id, _) => if before.value != [] && before.value[0] == id then Some(before.value[1..]) else None
        case _ => before
  }

  /** Every tool call so far has exactly one tool message, in order, before the next assistant message. */
  predicate Paired(ms: seq<Message>) {
    Unanswered(ms) == Some([])
  }

  function CallId(c: Call): string {
    if c.id != "" then c.id else c.name
  }

  // ----- One call

  predicate Mutates(c: Call) {
    c.name in MUTATORS || (c.name == "repo_git" && c.action == "commit")
  }

  ghost predicate AnyMutates(calls: seq<Call>) {
    exists i :: 0 <= i < |calls| && Mutates(calls[i])
  }

  predicate Terminal(c: Call) {
    c.result.Obj? && c.result.status in TERMINAL
  }

  /** The call starts a sub-agent: only at depth 0, for another known agent, with a task. */
  predicate Dispatches(cfg: Config, c: Call) {
    c.result.Obj? && c.result.dispatch && cfg.depth < 1
    && !c.sub.NoAgent? && c.result.agent != cfg.agentId && c.result.text != ""
  }

  predicate CallRaises(cfg: Config, c: Call) {
    !c.wellFormed || (Dispatches(cfg, c) && c.sub.Raises?)
  }

  /** The messages one call appends. The sub-agent's excerpt replaces the content of the LAST message. */
  function CallMessages(cfg: Config, c: Call): seq<Message> {
    var tool := Tool(CallId(c), Dump(c.result));
    if Dispatches(cfg, c) && c.sub.Answer? then
      var excerpt := Excerpt(c.sub.agent, c.sub.answer);
      if Terminal(c) then [tool, User(excerpt)] else [Tool(CallId(c), excerpt)]
    else
      if Terminal(c) then [tool, User(Str(JOB_DONE))] else [tool]
  }

  function AfterCall(cfg: Config, st: State, c: Call): State {
    st.(messages := st.messages + CallMessages(cfg, c),
        didMutate := st.didMutate || Mutates(c),
        tools := if Terminal(c) then [] else st.tools)
  }

  function AfterCalls(cfg: Config, st: State, calls: seq<Call>): State {
    if calls == [] then st else
      AfterCall(cfg, AfterCalls(cfg, st, calls[..|calls| - 1]), calls[|calls| - 1])
  }

  /** The round as the brakes see it. */
  function RoundOf(calls: seq<Call>): Round {
    Round(Map((c: Call) => (c.name, c.action), calls),
          exists i :: 0 <= i < |calls| && IsVerify(calls[i].name, calls[i].result),
          exists i :: 0 <= i < |calls| && IsEdit(calls[i].name, calls[i].action),
          exists i :: 0 <= i < |calls| && IsFail(calls[i].name, calls[i].result))
  }

  // ----- The end of a round

  /** The brakes, then the late write nudge from the fourth round on. */
  function AfterBrakes(cfg: Config, st: State, rnd: nat, round: Round): State {
    var (st1, nudged) :=
      if cfg.codeDesk && st.tools != [] then
        var v := NextBrake(st.brake, round);
        var st0 := st.(brake := v.brake);
        if v.forceStop then (st0.(tools := []), false)
        else if v.nudge then (st0.(messages := st0.messages + [User(Str(NUDGE_DONE))]), false)
        else if v.writeNudge || v.seeCapHit then (Narrow(cfg, st0), true)
        else (st0, false)
      else (st, false);
    if cfg.codeDesk && rnd + 1 >= 4 && !st1.didMutate && st1.names.GetOr([]) != [] && st1.tools != [] && !nudged
    then Narrow(cfg, st1) else st1
  }

  function Initial(cfg: Config): State {
    var names := if cfg.agentTools != [] then Some(cfg.agentTools) else None;
    var opening := [System(cfg.sys)] + Opening(cfg.prior) + [User(Str(cfg.user))];
    State(opening, if cfg.useTools && !cfg.useMemory then OpenaiTools(cfg.registry, names) else [], names, false, START)
  }

  /** Earlier user/assistant pairs, without tool calls. */
  function Opening(prior: seq<(string, string)>): seq<Message> {
    if prior == [] then [] else
      var (u, a) := prior[|prior| - 1];
      Opening(prior[..|prior| - 1]) + [User(Str(u)), Assistant(a, [])]
  }

  function ToolCap(cfg: Config): nat {
    if cfg.codeDesk then CODE_ROUNDS else HIRO_ROUNDS
  }

  function WithShortDone(ms: seq<Message>): seq<Message> {
    if ms != [] && EndsShort(ms) then ms else ms + [User(Str(SHORT_DONE))]
  }

  predicate EndsShort(ms: seq<Message>)
    requires ms != []
  {
    match ms[|ms| - 1]
    case User(b) => b == Str(SHORT_DONE)
    case Tool(_, b) => b == Str(SHORT_DONE)
    case Assistant(t, _) => t == SHORT_DONE
    case System(s) => s == SHORT_DONE
  }

  // ----- What every run keeps

  /** Nothing is offered, or what is offered comes from the allowed names. */
  ghost predicate Inv(cfg: Config, st: State) {
    && Paired(st.messages) && st.messages != []
    && (st.tools == [] || st.tools == OpenaiTools(cfg.registry, st.names))
    && (cfg.agentTools != [] && st.tools != [] ==> st.names.GetOr([]) != [])
  }

  ghost predicate OnlyWriters(tools: seq<string>) {
    forall t :: t in tools ==> t in WRITE_KEEP
  }

  ghost predicate Subset(a: seq<string>, b: seq<string>) {
    forall t :: t in a ==> t in b
  }

  lemma {:induction false} UnansweredSnoc(ms: seq<Message>, m: Message)
    ensures Unanswered(ms + [m]) ==
      var before := Unanswered(ms);
      if before.None? then None else
        match m
        case Assistant(_, ids) => if before.value == [] then Some(ids) else None
        case Tool(id, _) => if before.value != [] && before.value[0] == id then Some(before.value[1..]) else None
        case _ => before
  {
  }

  /** One call answers exactly the first outstanding id. */
  lemma CallAnswersOne(cfg: Config, ms: seq<Message>, c: Call, rest: seq<string>)
    requires Unanswered(ms) == Some([CallId(c)] + rest)
    ensures Unanswered(ms + CallMessages(cfg, c)) == Some(rest)
  {
    var added := CallMessages(cfg, c);
    UnansweredSnoc(ms, added[0]);
    assert ([CallId(c)] + rest)[1..] == rest;
    if |added| == 2 {
      UnansweredSnoc(ms + [added[0]], added[1]);
      assert ms + [added[0]] + [added[1]] == ms + added;
    } else {
      assert ms + [added[0]] == ms + added;
    }
  }

  function Ids(calls: seq<Call>): seq<string> {
    Map(CallId, calls)
  }

  /** Calls answer the first outstanding ids, one by one, and leave the others. */
  lemma {:induction false} CallsAnswerAll(cfg: Config, st: State, calls: seq<Call>, rest: seq<string>)
    requires Unanswered(st.messages) == Some(Ids(calls) + rest)
    ensures Unanswered(AfterCalls(cfg, st, calls).messages) == Some(rest)
  {
    if calls == [] {
      assert Ids(calls) + rest == rest;
    } else {
      var init, c := calls[..|calls| - 1], calls[|calls| - 1];
      assert Ids(calls) + rest == Ids(init) + ([CallId(c)] + rest);
      CallsAnswerAll(cfg, st, init, [CallId(c)] + rest);
      CallAnswersOne(cfg, AfterCalls(cfg, st, init).messages, c, rest);
    }
  }

  lemma {:induction false} CallsKeepTools(cfg: Config, st: State, calls: seq<Call>)
    ensures var st' := AfterCalls(cfg, st, calls);
      && st'.names == st.names && st'.brake == st.brake
      && (st'.tools == st.tools || st'.tools == [])
      && (st'.didMutate <==> st.didMutate || AnyMutates(calls))
  {
    if calls != [] {
      var init := calls[..|calls| - 1];
      CallsKeepTools(cfg, st, init);
      if i :| 0 <= i < |init| && Mutates(init[i]) {
        assert Mutates(calls[i]);
      }
      if i :| 0 <= i < |calls| && Mutates(calls[i]) {
        assert i < |init| ==> Mutates(init[i]);
      }
    }
  }

  lemma NarrowKeeps(cfg: Config, st: State)
    requires Inv(cfg, st) && st.tools != []
    ensures var st' := Narrow(cfg, st);
      && Inv(cfg, st') && Subset(st'.tools, st.tools) && OnlyWriters(st'.tools)
      && st'.didMutate == st.didMutate && st.messages <= st'.messages
  {
    UnansweredSnoc(st.messages, User(Str(NUDGE_WRITE)));
    var names := Keep(st.names);
    FilterIn((n: string) => n in WRITE_KEEP, st.names.GetOr([]));
    FilterIn((t: string) => t in names, cfg.registry);
    FilterIn((t: string) => t in st.names.GetOr([]), cfg.registry);
  }

  lemma BrakesKeep(cfg: Config, st: State, rnd: nat, round: Round)
    requires Inv(cfg, st)
    ensures var st' := AfterBrakes(cfg, st, rnd, round);
      && Inv(cfg, st') && Subset(st'.tools, st.tools) && st'.didMutate == st.didMutate && st.messages <= st'.messages
      && (cfg.codeDesk && cfg.agentTools != [] && rnd + 1 >= 4 && !st.didMutate ==> OnlyWriters(st'.tools))
  {
    UnansweredSnoc(st.messages, User(Str(NUDGE_DONE)));
    if cfg.codeDesk && st.tools != [] {
      var st0 := st.(brake := NextBrake(st.brake, round).brake);
      NarrowKeeps(cfg, st0);
      NarrowKeeps(cfg, st0.(messages := st0.messages + [User(Str(NUDGE_DONE))]));
    }
  }

  lemma InitialIsFine(cfg: Config)
    ensures Inv(cfg, Initial(cfg))
  {
    var start := [System(cfg.sys)];
    assert start[..0] == [];
    OpeningIsPaired(start, cfg.prior);
    UnansweredSnoc(start + Opening(cfg.prior), User(Str(cfg.user)));
  }

  lemma ExchangeIsPaired(before: seq<Message>, u: Message, a: string)
    requires Paired(before) && u.User?
    ensures Paired(before + [u, Assistant(a, [])])
  {
    UnansweredSnoc(before, u);
    UnansweredSnoc(before + [u], Assistant(a, []));
    assert before + [u, Assistant(a, [])] == before + [u] + [Assistant(a, [])];
  }

  lemma {:induction false} OpeningIsPaired(start: seq<Message>, prior: seq<(string, string)>)
    requires Paired(start)
    ensures Paired(start + Opening(prior))
  {
    if prior == [] {
      assert start + [] == start;
    } else {
      var (u, a) := prior[|prior| - 1];
      var init := Opening(prior[..|prior| - 1]);
      OpeningIsPaired(start, prior[..|prior| - 1]);
      ExchangeIsPaired(start + init, User(Str(u)), a);
      assert start + Opening(prior) == start + init + [User(Str(u)), Assistant(a, [])];
    }
  }

  // ----- The loop

  lemma AfterOneMore(cfg: Config, st: State, calls: seq<Call>, k: nat)
    requires k < |calls|
    ensures AfterCalls(cfg, st, calls[..k + 1]) == AfterCall(cfg, AfterCalls(cfg, st, calls[..k]), calls[k])
  {
    Snoc(calls, k);
  }

  /** The tool calls of one round. An exception ends the turn. */
  method DoCalls(cfg: Config, st: State, calls: seq<Call>) returns (st': State, raised: bool)
    ensures raised <==> AnyRaises(cfg, calls)
    ensures !raised ==> st' == AfterCalls(cfg, st, calls)
  {
    st' := st;
    for k := 0 to |calls|
      invariant st' == AfterCalls(cfg, st, calls[..k])
      invariant forall i :: 0 <= i < k ==> !CallRaises(cfg, calls[i])
    {
      AfterOneMore(cfg, st, calls, k);
      if CallRaises(cfg, calls[k]) {
        return st', true;
      }
      st' := AfterCall(cfg, st', calls[k]);
    }
    Whole(calls);
    return st', false;
  }

  /** Some round before `n` asked for a mutating tool. */
  ghost predicate MutatedBefore(env: nat -> Input, n: nat) {
    exists k: nat, i :: k < n && env(k).reply.Calls? && 0 <= i < |env(k).reply.calls| && Mutates(env(k).reply.calls[i])
  }

  /** Earlier requests were not the last one, offered at least these tools, and sent a prefix of these messages. */
  ghost predicate Follows(before: seq<Request>, tools: seq<string>, messages: seq<Message>) {
    forall i :: 0 <= i < |before| ==>
      !before[i].last && Subset(tools, before[i].offered) && before[i].messages <= messages
  }

  /** From the fifth round on a code agent that has not mutated is offered writers only. */
  ghost predicate WritersOnly(cfg: Config, env: nat -> Input, rnd: nat, tools: seq<string>) {
    cfg.codeDesk && cfg.agentTools != [] && rnd >= 4 && !MutatedBefore(env, 4) ==> OnlyWriters(tools)
  }

  /** A request is a well-paired conversation that follows the earlier ones; without tools it is the last
      one and ends with the short-answer order. */
  ghost predicate GoodRequest(cfg: Config, env: nat -> Input, before: seq<Request>, r: Request) {
    && Paired(r.messages) && r.messages != []
    && (r.last <==> r.offered == [])
    && (r.last ==> EndsShort(r.messages))
    && (cfg.codeDesk && !r.last ==> Unforced(env, |before|))
    && WritersOnly(cfg, env, |before|, r.offered)
    && Follows(before, r.offered, r.messages)
  }

  ghost predicate GoodTurn(cfg: Config, env: nat -> Input, log: seq<Request>) {
    log == [] ||
    (GoodTurn(cfg, env, log[..|log| - 1]) && GoodRequest(cfg, env, log[..|log| - 1], log[|log| - 1]))
  }

  /** What a good turn says of each of its requests. */
  lemma {:induction false} EachRequestIsGood(cfg: Config, env: nat -> Input, log: seq<Request>, k: nat)
    requires GoodTurn(cfg, env, log) && k < |log|
    ensures GoodRequest(cfg, env, log[..k], log[k])
    ensures log[k].last ==> k == |log| - 1
  {
    var init := log[..|log| - 1];
    if k < |init| {
      EachRequestIsGood(cfg, env, init, k);
      assert init[..k] == log[..k];
    }
  }

  ghost predicate LoopInv(cfg: Config, env: nat -> Input, log: seq<Request>, st: State) {
    && Inv(cfg, st) && GoodTurn(cfg, env, log) && Follows(log, st.tools, st.messages)
    && (st.didMutate ==> MutatedBefore(env, |log|))
    && WritersOnly(cfg, env, |log|, st.tools)
    && BrakeInv(cfg, env, |log|, st)
  }

  /** The rounds of the first `n` replies, as the brakes see them. */
  ghost function Rounds(env: nat -> Input, n: nat): seq<Round> {
    if n == 0 then [] else
      Rounds(env, n - 1) + [RoundOf(if env(n - 1).reply.Calls? then env(n - 1).reply.calls else [])]
  }

  ghost predicate Unforced(env: nat -> Input, n: nat) {
    forall m: nat :: 0 < m <= n ==> !Last(Rounds(env, m)).forceStop
  }

  /** While a code agent has tools, its brake counters are those of the whole turn and none has forced. */
  ghost predicate BrakeInv(cfg: Config, env: nat -> Input, n: nat, st: State) {
    cfg.codeDesk && st.tools != [] ==> st.brake == After(Rounds(env, n)) && Unforced(env, n)
  }

  /** What one round does: send the last requests and stop, or go on with a new state. */
  datatype Step = Stop(sent: seq<Request>, outcome: Outcome) | Go(st: State)

  function StepOf(cfg: Config, input: Input, rnd: nat, st: State): Step {
    if input.stopped then Stop([], Stopped)
    else if rnd == ToolCap(cfg) || st.tools == [] then
      Stop([Request(WithShortDone(st.messages), [], true)], LastOutcome(input.reply))
    else
      var sent := [Request(st.messages, st.tools, false)];
      match input.reply
      case Cancelled => Stop(sent, Stopped)
      case Failed => Stop(sent, Raised)
      case Final(text) => Stop(sent, AnswerAt(cfg, rnd, text))
      case Calls(text, calls) =>
        if calls == [] then Stop(sent, AnswerAt(cfg, rnd, text))
        else if AnyRaises(cfg, calls) then Stop(sent, Raised)
        else Go(AfterRound(cfg, st, rnd, text, calls))
  }

  /** The turn from round `rnd` on, after the requests in `log`. */
  function Run(cfg: Config, env: nat -> Input, rnd: nat, st: State, log: seq<Request>): (seq<Request>, Outcome)
    requires rnd <= ToolCap(cfg) + 1
    decreases ToolCap(cfg) + 1 - rnd
  {
    if rnd > ToolCap(cfg) then (log, OutOfRounds) else
      match StepOf(cfg, env(rnd), rnd, st)
      case Stop(sent, outcome) => (log + sent, outcome)
      case Go(st') => Run(cfg, env, rnd + 1, st', log + [Request(st.messages, st.tools, false)])
  }

  function AfterRound(cfg: Config, st: State, rnd: nat, text: string, calls: seq<Call>): State {
    var asked := st.(messages := st.messages + [Assistant(text, Ids(calls))]);
    AfterBrakes(cfg, AfterCalls(cfg, asked, calls), rnd, RoundOf(calls))
  }

  predicate AnyRaises(cfg: Config, calls: seq<Call>) {
    exists i :: 0 <= i < |calls| && CallRaises(cfg, calls[i])
  }

  function AnswerAt(cfg: Config, rnd: nat, text: string): Outcome {
    Answered(if text == "" && rnd + 1 >= ToolCap(cfg) then CAP_TEXT else text)
  }

  function LastOutcome(reply: Reply): Outcome {
    match reply
    case Cancelled => Stopped
    case Failed => Raised
    case Final(text) => Answered(text)
    case Calls(text, _) => Answered(text)
  }

  method RunTurn(cfg: Config, env: nat -> Input) returns (log: seq<Request>, outcome: Outcome)
    ensures (log, outcome) == Run(cfg, env, 0, Initial(cfg), [])
  {
    var s := Initial(cfg);
    log := [];
    var maxR := ToolCap(cfg) + 1;
    for rnd := 0 to maxR
      invariant Run(cfg, env, 0, Initial(cfg), []) == Run(cfg, env, rnd, s, log)
    {
      if env(rnd).stopped {
        assert log + [] == log;
        return log, Stopped;
      }
      if rnd >= ToolCap(cfg) {
        s := s.(tools := []);
      }
      if rnd == maxR - 1 || s.tools == [] {
        return log + [Request(WithShortDone(s.messages), [], true)], LastOutcome(env(rnd).reply);
      }
      log := log + [Request(s.messages, s.tools, false)];
      match env(rnd).reply
      case Cancelled => return log, Stopped;
      case Failed => return log, Raised;
      case Final(text) => return log, AnswerAt(cfg, rnd, text);
      case Calls(text, calls) =>
        if calls == [] {
          return log, AnswerAt(cfg, rnd, text);
        }
        var s', raised := DoCalls(cfg, s.(messages := s.messages + [Assistant(text, Ids(calls))]), calls);
        if raised {
          return log, Raised;
        }
        s := AfterBrakes(cfg, s', rnd, RoundOf(calls));
    }
    return log, OutOfRounds;
  }

  ghost predicate EndsWell(cfg: Config, env: nat -> Input, turn: (seq<Request>, Outcome)) {
    GoodTurn(cfg, env, turn.0) && |turn.0| <= ToolCap(cfg) + 1 && !turn.1.OutOfRounds?
  }

  /** What holds of every turn: it ends within the cap plus one request, never by running out of rounds. */
  lemma EveryTurnEndsWell(cfg: Config, env: nat -> Input)
    ensures EndsWell(cfg, env, Run(cfg, env, 0, Initial(cfg), []))
  {
    InitialIsFine(cfg);
    RunEndsWell(cfg, env, Initial(cfg), []);
  }

  lemma {:induction false} RunEndsWell(cfg: Config, env: nat -> Input, st: State, log: seq<Request>)
    requires |log| <= ToolCap(cfg) && LoopInv(cfg, env, log, st)
    ensures EndsWell(cfg, env, Run(cfg, env, |log|, st, log))
    decreases ToolCap(cfg) - |log|
  {
    var step := StepEndsWell(cfg, env, st, log);
    if step.Go? {
      RunEndsWell(cfg, env, step.st, log + [Request(st.messages, st.tools, false)]);
    }
  }

  lemma StepEndsWell(cfg: Config, env: nat -> Input, st: State, log: seq<Request>) returns (step: Step)
    requires |log| <= ToolCap(cfg) && LoopInv(cfg, env, log, st)
    ensures step == StepOf(cfg, env(|log|), |log|, st)
    ensures step.Go? ==>
      |log| < ToolCap(cfg) && LoopInv(cfg, env, log + [Request(st.messages, st.tools, false)], step.st)
    ensures step.Stop? ==> EndsWell(cfg, env, (log + step.sent, step.outcome))
  {
    step := StepOf(cfg, env(|log|), |log|, st);
    if step.Go? {
      NextRound(cfg, env, log, st, env(|log|).reply.text, env(|log|).reply.calls);
    } else {
      StopEndsWell(cfg, env, st, log);
    }
  }

  lemma StopEndsWell(cfg: Config, env: nat -> Input, st: State, log: seq<Request>)
    requires |log| <= ToolCap(cfg) && LoopInv(cfg, env, log, st) && StepOf(cfg, env(|log|), |log|, st).Stop?
    ensures var step := StepOf(cfg, env(|log|), |log|, st); EndsWell(cfg, env, (log + step.sent, step.outcome))
  {
    if env(|log|).stopped {
      assert log + [] == log;
    } else if |log| == ToolCap(cfg) || st.tools == [] {
      LastRequest(cfg, env, log, st);
    } else {
      ToolRequest(cfg, env, log, st);
    }
  }

  lemma LastRequest(cfg: Config, env: nat -> Input, log: seq<Request>, st: State)
    requires GoodTurn(cfg, env, log) && Follows(log, st.tools, st.messages) && Paired(st.messages)
    ensures GoodTurn(cfg, env, log + [Request(WithShortDone(st.messages), [], true)])
  {
  }

  lemma ToolRequest(cfg: Config, env: nat -> Input, log: seq<Request>, st: State)
    requires LoopInv(cfg, env, log, st) && st.tools != []
    ensures GoodTurn(cfg, env, log + [Request(st.messages, st.tools, false)])
  {
  }

  lemma FollowsOn(log: seq<Request>, st: State, st': State)
    requires Follows(log, st.tools, st.messages) && Subset(st'.tools, st.tools) && st.messages <= st'.messages
    ensures Follows(log + [Request(st.messages, st.tools, false)], st'.tools, st'.messages)
  {
  }

  lemma NextRound(cfg: Config, env: nat -> Input, log: seq<Request>, st: State, text: string, calls: seq<Call>)
    requires LoopInv(cfg, env, log, st) && st.tools != [] && env(|log|).reply == Calls(text, calls)
    ensures LoopInv(cfg, env, log + [Request(st.messages, st.tools, false)], AfterRound(cfg, st, |log|, text, calls))
  {
    var st1 := AfterCalls(cfg, st.(messages := st.messages + [Assistant(text, Ids(calls))]), calls);
    CallsStage(cfg, st, text, calls);
    BrakesKeep(cfg, st1, |log|, RoundOf(calls));
    BrakeUsed(cfg, st1, |log|, RoundOf(calls));
    Assemble(cfg, env, log, st, st1, AfterBrakes(cfg, st1, |log|, RoundOf(calls)), calls);
  }

  lemma Assemble(cfg: Config, env: nat -> Input, log: seq<Request>, st: State, st1: State, st': State, calls: seq<Call>)
    requires LoopInv(cfg, env, log, st) && st.tools != []
    requires env(|log|).reply.Calls? && env(|log|).reply.calls == calls
    requires Inv(cfg, st') && Subset(st'.tools, st1.tools) && st1.messages <= st'.messages
    requires (st1.tools == st.tools || st1.tools == []) && st.messages <= st1.messages && st1.brake == st.brake
    requires st'.didMutate <==> st.didMutate || AnyMutates(calls)
    requires cfg.codeDesk && cfg.agentTools != [] && |log| + 1 >= 4 && !st'.didMutate ==> OnlyWriters(st'.tools)
    requires BrakeUse(cfg, st1, st', RoundOf(calls))
    ensures LoopInv(cfg, env, log + [Request(st.messages, st.tools, false)], st')
  {
    ToolRequest(cfg, env, log, st);
    FollowsOn(log, st, st');
    FlagStage(cfg, env, |log|, st, st1, st', calls);
  }

  lemma FlagStage(cfg: Config, env: nat -> Input, n: nat, st: State, st1: State, st': State, calls: seq<Call>)
    requires env(n).reply.Calls? && env(n).reply.calls == calls && st.tools != []
    requires st.didMutate ==> MutatedBefore(env, n)
    requires WritersOnly(cfg, env, n, st.tools) && BrakeInv(cfg, env, n, st)
    requires Subset(st'.tools, st.tools) && st1.brake == st.brake && (st1.tools == st.tools || st1.tools == [])
    requires st'.didMutate <==> st.didMutate || AnyMutates(calls)
    requires cfg.codeDesk && cfg.agentTools != [] && n + 1 >= 4 && !st'.didMutate ==> OnlyWriters(st'.tools)
    requires BrakeUse(cfg, st1, st', RoundOf(calls))
    ensures st'.didMutate ==> MutatedBefore(env, n + 1)
    ensures WritersOnly(cfg, env, n + 1, st'.tools) && BrakeInv(cfg, env, n + 1, st')
  {
  }

  /** Tools survive a code round only when the brake ran and did not force. */
  ghost predicate BrakeUse(cfg: Config, st: State, st': State, round: Round) {
    cfg.codeDesk && st'.tools != [] ==>
      && st.tools != []
      && st'.brake == NextBrake(st.brake, round).brake && !NextBrake(st.brake, round).forceStop
  }

  lemma BrakeUsed(cfg: Config, st: State, rnd: nat, round: Round)
    ensures BrakeUse(cfg, st, AfterBrakes(cfg, st, rnd, round), round)
  {
  }

  // ----- Tool messages

  /** The message a call is owed: its result, or the excerpt of the sub-agent it dispatched. */
  function AnswerTo(cfg: Config, c: Call): Message {
    Tool(CallId(c), if Dispatches(cfg, c) && c.sub.Answer? then Excerpt(c.sub.agent, c.sub.answer) else Dump(c.result))
  }

  function ToolMessages(ms: seq<Message>): seq<Message> {
    Filter((m: Message) => m.Tool?, ms)
  }

  /** What the calls of the first `n` rounds are owed, in order. */
  ghost function Owed(cfg: Config, env: nat -> Input, n: nat): seq<Message> {
    if n == 0 then [] else
      Owed(cfg, env, n - 1)
        + if env(n - 1).reply.Calls? then Map((c: Call) => AnswerTo(cfg, c), env(n - 1).reply.calls) else []
  }

  /** The shape of dispatching results: `ask_agent` alone makes them, without a status. */
  ghost predicate DispatchHasNoStatus(c: Call) {
    c.result.Obj? && c.result.dispatch ==> c.result.status == ""
  }

  ghost predicate ToolShapes(env: nat -> Input) {
    forall n: nat, c :: env(n).reply.Calls? && c in env(n).reply.calls ==> DispatchHasNoStatus(c)
  }

  lemma ToolMessagesSnoc(ms: seq<Message>, m: Message)
    ensures ToolMessages(ms + [m]) == if m.Tool? then ToolMessages(ms) + [m] else ToolMessages(ms)
  {
    FilterSnoc((x: Message) => x.Tool?, ms, m);
    assert ToolMessages(ms) + [] == ToolMessages(ms);
  }

  /** A call's messages hold its answer as their only tool message. */
  lemma CallIsAnswered(cfg: Config, ms: seq<Message>, c: Call)
    requires DispatchHasNoStatus(c)
    ensures ToolMessages(ms + CallMessages(cfg, c)) == ToolMessages(ms) + [AnswerTo(cfg, c)]
  {
    ToolMessagesSnoc(ms, AnswerTo(cfg, c));
    if Terminal(c) {
      ToolMessagesSnoc(ms + [AnswerTo(cfg, c)], User(Str(JOB_DONE)));
      assert ms + CallMessages(cfg, c) == ms + [AnswerTo(cfg, c)] + [User(Str(JOB_DONE))];
    }
  }

  lemma {:induction false} CallsAreAnswered(cfg: Config, st: State, calls: seq<Call>)
    requires forall c :: c in calls ==> DispatchHasNoStatus(c)
    ensures ToolMessages(AfterCalls(cfg, st, calls).messages)
      == ToolMessages(st.messages) + Map((c: Call) => AnswerTo(cfg, c), calls)
  {
    if calls == [] {
      assert ToolMessages(st.messages) + [] == ToolMessages(st.messages);
    } else {
      var init, c := calls[..|calls| - 1], calls[|calls| - 1];
      assert calls == init + [c];
      CallsAreAnswered(cfg, st, init);
      CallIsAnswered(cfg, AfterCalls(cfg, st, init).messages, c);
      MapSnoc((x: Call) => AnswerTo(cfg, x), init, c);
    }
  }

  lemma BrakesAddNoToolMessage(cfg: Config, st: State, rnd: nat, round: Round)
    ensures ToolMessages(AfterBrakes(cfg, st, rnd, round).messages) == ToolMessages(st.messages)
  {
    var done, write := User(Str(NUDGE_DONE)), User(Str(NUDGE_WRITE));
    ToolMessagesSnoc(st.messages, done);
    ToolMessagesSnoc(st.messages, write);
    ToolMessagesSnoc(st.messages + [done], write);
  }

  lemma RoundIsAnswered(cfg: Config, st: State, rnd: nat, text: string, calls: seq<Call>)
    requires forall c :: c in calls ==> DispatchHasNoStatus(c)
    ensures ToolMessages(AfterRound(cfg, st, rnd, text, calls).messages)
      == ToolMessages(st.messages) + Map((c: Call) => AnswerTo(cfg, c), calls)
  {
    var asked := st.(messages := st.messages + [Assistant(text, Ids(calls))]);
    ToolMessagesSnoc(st.messages, Assistant(text, Ids(calls)));
    CallsAreAnswered(cfg, asked, calls);
    BrakesAddNoToolMessage(cfg, AfterCalls(cfg, asked, calls), rnd, RoundOf(calls));
  }

  lemma ExchangeHasNoTools(before: seq<Message>, u: Message, a: string)
    requires ToolMessages(before) == [] && u.User?
    ensures ToolMessages(before + [u, Assistant(a, [])]) == []
  {
    ToolMessagesSnoc(before, u);
    ToolMessagesSnoc(before + [u], Assistant(a, []));
    assert before + [u, Assistant(a, [])] == before + [u] + [Assistant(a, [])];
  }

  lemma {:induction false} OpeningHasNoTools(start: seq<Message>, prior: seq<(string, string)>)
    requires ToolMessages(start) == []
    ensures ToolMessages(start + Opening(prior)) == []
  {
    if prior == [] {
      assert start + [] == start;
    } else {
      var (u, a) := prior[|prior| - 1];
      var init := Opening(prior[..|prior| - 1]);
      OpeningHasNoTools(start, prior[..|prior| - 1]);
      ExchangeHasNoTools(start + init, User(Str(u)), a);
      assert start + Opening(prior) == start + init + [User(Str(u)), Assistant(a, [])];
    }
  }

  lemma InitialHasNoTools(cfg: Config)
    ensures ToolMessages(Initial(cfg).messages) == []
  {
    var none: seq<Message> := [];
    ToolMessagesSnoc(none, System(cfg.sys));
    assert none + [System(cfg.sys)] == [System(cfg.sys)];
    OpeningHasNoTools([System(cfg.sys)], cfg.prior);
    ToolMessagesSnoc([System(cfg.sys)] + Opening(cfg.prior), User(Str(cfg.user)));
  }

  /** Every request carries exactly what earlier calls are owed. */
  ghost predicate AllAnswered(cfg: Config, env: nat -> Input, log: seq<Request>) {
    forall k :: 0 <= k < |log| ==> ToolMessages(log[k].messages) == Owed(cfg, env, k)
  }

  /** Over a whole turn: the tool messages of each request are, in order, one for every call of the earlier
      rounds, with the result of that call or the excerpt of the sub-agent it dispatched. */
  lemma EveryCallGetsItsAnswer(cfg: Config, env: nat -> Input)
    requires ToolShapes(env)
    ensures AllAnswered(cfg, env, Run(cfg, env, 0, Initial(cfg), []).0)
  {
    InitialHasNoTools(cfg);
    RunIsAnswered(cfg, env, Initial(cfg), []);
  }

  /** Every request carries exactly what earlier calls are owed, and so does the next one. */
  ghost predicate AnsweredSoFar(cfg: Config, env: nat -> Input, log: seq<Request>, st: State) {
    AllAnswered(cfg, env, log) && ToolMessages(st.messages) == Owed(cfg, env, |log|)
  }

  lemma StopIsAnswered(cfg: Config, env: nat -> Input, st: State, log: seq<Request>)
    requires AnsweredSoFar(cfg, env, log, st) && StepOf(cfg, env(|log|), |log|, st).Stop?
    ensures AllAnswered(cfg, env, log + StepOf(cfg, env(|log|), |log|, st).sent)
  {
    ToolMessagesSnoc(st.messages, User(Str(SHORT_DONE)));
  }

  lemma GoIsAnswered(cfg: Config, env: nat -> Input, st: State, log: seq<Request>)
    requires ToolShapes(env) && AnsweredSoFar(cfg, env, log, st)
    requires StepOf(cfg, env(|log|), |log|, st).Go?
    ensures AnsweredSoFar(cfg, env, log + [Request(st.messages, st.tools, false)],
                          StepOf(cfg, env(|log|), |log|, st).st)
  {
    var reply := env(|log|).reply;
    RoundIsAnswered(cfg, st, |log|, reply.text, reply.calls);
  }

  lemma {:induction false} RunIsAnswered(cfg: Config, env: nat -> Input, st: State, log: seq<Request>)
    requires ToolShapes(env) && |log| <= ToolCap(cfg) + 1 && AnsweredSoFar(cfg, env, log, st)
    ensures AllAnswered(cfg, env, Run(cfg, env, |log|, st, log).0)
    decreases ToolCap(cfg) + 1 - |log|
  {
    if |log| <= ToolCap(cfg) {
      var step := StepOf(cfg, env(|log|), |log|, st);
      if step.Go? {
        GoIsAnswered(cfg, env, st, log);
        RunIsAnswered(cfg, env, step.st, log + [Request(st.messages, st.tools, false)]);
      } else {
        StopIsAnswered(cfg, env, st, log);
      }
    }
  }

  /** A code turn never offers tools again after a see-only round that follows a verified state. */
  lemma NoToolsAfterForceStop(cfg: Config, env: nat -> Input, log: seq<Request>, k: nat)
    requires GoodTurn(cfg, env, log) && cfg.codeDesk && 0 < k < |log|
    requires PlainSee(Rounds(env, k)[|Rounds(env, k)| - 1]) && Verified(Rounds(env, k - 1))
    ensures log[k].last
  {
    var rounds := Rounds(env, k);
    assert rounds[..|rounds| - 1] == Rounds(env, k - 1);
    BrakesFireExactly(rounds);
    SawStep(Rounds(env, k - 1), rounds[|rounds| - 1]);
    assert rounds == Rounds(env, k - 1) + [rounds[|rounds| - 1]];
    EachRequestIsGood(cfg, env, log, k);
  }

  lemma CallsPaired(cfg: Config, st: State, text: string, calls: seq<Call>)
    requires Paired(st.messages)
    ensures Paired(AfterCalls(cfg, st.(messages := st.messages + [Assistant(text, Ids(calls))]), calls).messages)
  {
    UnansweredSnoc(st.messages, Assistant(text, Ids(calls)));
    assert Ids(calls) + [] == Ids(calls);
    CallsAnswerAll(cfg, st.(messages := st.messages + [Assistant(text, Ids(calls))]), calls, []);
  }

  lemma CallsStage(cfg: Config, st: State, text: string, calls: seq<Call>)
    requires Inv(cfg, st)
    ensures var st' := AfterCalls(cfg, st.(messages := st.messages + [Assistant(text, Ids(calls))]), calls);
      && Inv(cfg, st') && (st'.tools == st.tools || st'.tools == []) && st.messages <= st'.messages
      && st'.brake == st.brake && (st'.didMutate <==> st.didMutate || AnyMutates(calls))
  {
    CallsPaired(cfg, st, text, calls);
    CallsKeepTools(cfg, st.(messages := st.messages + [Assistant(text, Ids(calls))]), calls);
    CallsGrow(cfg, st.(messages := st.messages + [Assistant(text, Ids(calls))]), calls);
  }

  lemma {:induction false} CallsGrow(cfg: Config, st: State, calls: seq<Call>)
    ensures st.messages <= AfterCalls(cfg, st, calls).messages
  {
    if calls != [] {
      CallsGrow(cfg, st, calls[..|calls| - 1]);
    }
  }
}
