/** What a turn of `cockpit/backend/app/llm.py` sends, told by its history alone: no counters and no running state. */
module TurnHistory {
  import opened Lists
  import opened Orchestrate
  import opened TurnLoop

  // ----- What happened in a round

  ghost predicate Finishes(c: Call) {
    c.result.Obj? && (c.result.status == "done" || c.result.status == "timeout" || c.result.status == "error")
  }

  /** Some call of the round reported a finished job. */
  ghost predicate FinishedIn(env: nat -> Input, n: nat) {
    env(n).reply.Calls? && exists c :: c in env(n).reply.calls && Finishes(c)
  }

  ghost predicate FinishedBefore(env: nat -> Input, n: nat) {
    exists k: nat :: k < n && FinishedIn(env, k)
  }

  /** The code agent only looked after a verified state, in some round before `n`. */
  ghost predicate ForcedBefore(cfg: Config, env: nat -> Input, n: nat) {
    cfg.codeDesk && exists m: nat :: 0 < m <= n && SawAfterVerify(Rounds(env, m))
  }

  /** The last three rounds only looked, and nothing is verified. */
  ghost predicate LooksTooLong(env: nat -> Input, n: nat) {
    !Verified(Rounds(env, n + 1)) && Tail(Rounds(env, n + 1), 3)
  }

  ghost predicate Changes(c: Call) {
    || c.name == "repo_edit" || c.name == "repo_write" || c.name == "repo_bash" || c.name == "iframe_write"
    || c.name == "preview_serve" || (c.name == "repo_git" && c.action == "commit")
  }

  /** Some call of the first `n` rounds was to change something. */
  ghost predicate ChangedBefore(env: nat -> Input, n: nat) {
    exists k: nat, c :: k < n && env(k).reply.Calls? && c in env(k).reply.calls && Changes(c)
  }

  /** From the fourth round on: nothing has been changed yet. */
  ghost predicate WritesTooLate(cfg: Config, env: nat -> Input, n: nat) {
    n >= 3 && !ChangedBefore(env, n + 1) && cfg.agentTools != []
  }

  lemma ChangedIsMutated(env: nat -> Input, n: nat)
    ensures ChangedBefore(env, n) <==> MutatedBefore(env, n)
  {
    if k: nat, i :| k < n && env(k).reply.Calls? && 0 <= i < |env(k).reply.calls| && Mutates(env(k).reply.calls[i]) {
      assert env(k).reply.calls[i] in env(k).reply.calls && Changes(env(k).reply.calls[i]);
    }
    if k: nat, c :| k < n && env(k).reply.Calls? && c in env(k).reply.calls && Changes(c) {
      var i :| 0 <= i < |env(k).reply.calls| && env(k).reply.calls[i] == c;
      assert Mutates(env(k).reply.calls[i]);
    }
  }

  /** What the brakes see of a round: its calls in order, and whether one succeeded, edited or failed. */
  lemma RoundsAre(env: nat -> Input, n: nat, k: nat)
    requires k < n && env(k).reply.Calls?
    ensures |Rounds(env, n)| == n
    ensures var (r, calls) := (Rounds(env, n)[k], env(k).reply.calls);
      && |r.calls| == |calls|
      && (forall i :: 0 <= i < |calls| ==> r.calls[i] == (calls[i].name, calls[i].action))
      && (r.gotVerify <==> exists c :: c in calls && IsVerify(c.name, c.result))
      && (r.gotEdit <==> exists c :: c in calls && IsEdit(c.name, c.action))
      && (r.gotFail <==> exists c :: c in calls && IsFail(c.name, c.result))
  {
    RoundAt(env, n, k);
    EachIsSome(env(k).reply.calls);
  }

  lemma {:induction false} RoundAt(env: nat -> Input, n: nat, k: nat)
    requires k < n
    ensures |Rounds(env, n)| == n
    ensures Rounds(env, n)[k] == RoundOf(if env(k).reply.Calls? then env(k).reply.calls else [])
  {
    if k < n - 1 {
      RoundAt(env, n - 1, k);
    } else if n > 1 {
      RoundAt(env, n - 1, 0);
    }
  }

  lemma EachIsSome<T>(s: seq<T>)
    ensures forall i :: 0 <= i < |s| ==> s[i] in s
    ensures forall x :: x in s ==> exists i :: 0 <= i < |s| && s[i] == x
  {
  }

  ghost predicate NarrowedBefore(cfg: Config, env: nat -> Input, n: nat) {
    cfg.codeDesk && exists k: nat :: k < n && (LooksTooLong(env, k) || WritesTooLate(cfg, env, k))
  }

  // ----- What is offered

  /** The registered tools of the agent; an agent without a list has them all. */
  function Allowed(cfg: Config): seq<string> {
    Filter((t: string) => cfg.agentTools == [] || t in cfg.agentTools, cfg.registry)
  }

  /** Those that write. */
  function Writers(cfg: Config): seq<string> {
    Filter((t: string) => t in cfg.agentTools && t in WRITE_KEEP, cfg.registry)
  }

  ghost function Wanted(cfg: Config, env: nat -> Input, n: nat): seq<string> {
    if NarrowedBefore(cfg, env, n) then Writers(cfg) else Allowed(cfg)
  }

  /** Nothing has taken the tools away. */
  ghost predicate HasTools(cfg: Config, env: nat -> Input, n: nat) {
    cfg.useTools && !cfg.useMemory && !FinishedBefore(env, n) && !ForcedBefore(cfg, env, n)
  }

  /** How many requests may come before the last one. */
  function Cap(cfg: Config): nat {
    if cfg.codeDesk then 16 else 8
  }

  ghost predicate IsLast(cfg: Config, env: nat -> Input, n: nat) {
    n == Cap(cfg) || !HasTools(cfg, env, n) || Wanted(cfg, env, n) == []
  }

  // ----- What is said

  function WithBody(m: Message, body: Body): Message {
    match m
    case Tool(id, _) => Tool(id, body)
    case User(_) => User(body)
    case _ => m
  }

  ghost predicate Delegates(cfg: Config, c: Call) {
    c.result.Obj? && c.result.dispatch && cfg.depth == 0 && c.result.agent != cfg.agentId && c.result.text != ""
  }

  /** A call's result, and the order to stop after a finished job; a sub-agent's excerpt takes the place of the
      last content. */
  ghost function Said(cfg: Config, c: Call): seq<Message> {
    var id := if c.id == "" then c.name else c.id;
    var plain := [Tool(id, Dump(c.result))] + if Finishes(c) then [User(Str(JOB_DONE))] else [];
    if Delegates(cfg, c) && c.sub.Answer?
    then plain[|plain| - 1 := WithBody(plain[|plain| - 1], Excerpt(c.sub.agent, c.sub.answer))] else plain
  }

  ghost function SaidByAll(cfg: Config, calls: seq<Call>): seq<Message> {
    if calls == [] then [] else SaidByAll(cfg, calls[..|calls| - 1]) + Said(cfg, calls[|calls| - 1])
  }

  ghost predicate VerifiedIn(env: nat -> Input, n: nat) {
    env(n).reply.Calls? && exists c :: c in env(n).reply.calls && IsVerify(c.name, c.result)
  }

  /** The orders that a code agent gets after round `n`. */
  ghost function Nudges(cfg: Config, env: nat -> Input, n: nat): seq<Message> {
    if !cfg.codeDesk || FinishedIn(env, n) || SawAfterVerify(Rounds(env, n + 1)) then []
    else
      (if VerifiedIn(env, n) then [User(Str(NUDGE_DONE))] else [])
      + (if LooksTooLong(env, n) || WritesTooLate(cfg, env, n) then [User(Str(NUDGE_WRITE))] else [])
  }

  ghost function Spoken(cfg: Config, env: nat -> Input, n: nat): seq<Message> {
    if n == 0 then [System(cfg.sys)] + Opening(cfg.prior) + [User(Str(cfg.user))]
    else
      var reply := env(n - 1).reply;
      Spoken(cfg, env, n - 1)
      + (if reply.Calls? then [Assistant(reply.text, Ids(reply.calls))] + SaidByAll(cfg, reply.calls) else [])
      + Nudges(cfg, env, n - 1)
  }

  ghost predicate AsksShort(m: Message) {
    match m
    case System(text) => text == SHORT_DONE
    case User(body) => body == Str(SHORT_DONE)
    case Assistant(text, _) => text == SHORT_DONE
    case Tool(_, body) => body == Str(SHORT_DONE)
  }

  /** The last request asks for a short answer, unless that was just said. */
  ghost function Closed(ms: seq<Message>): seq<Message> {
    if ms != [] && AsksShort(ms[|ms| - 1]) then ms else ms + [User(Str(SHORT_DONE))]
  }

  ghost function Expected(cfg: Config, env: nat -> Input, n: nat): Request {
    if IsLast(cfg, env, n) then Request(Closed(Spoken(cfg, env, n)), [], true)
    else Request(Spoken(cfg, env, n), Wanted(cfg, env, n), false)
  }

  // ----- When a turn ends

  ghost predicate Breaks(cfg: Config, c: Call) {
    !c.wellFormed || (Delegates(cfg, c) && c.sub.Raises?)
  }

  /** Round `n` is asked with tools and answered by calls that all work. */
  ghost predicate GoesOn(cfg: Config, env: nat -> Input, n: nat) {
    && !IsLast(cfg, env, n) && env(n).reply.Calls? && env(n).reply.calls != []
    && forall c :: c in env(n).reply.calls ==> !Breaks(cfg, c)
  }

  ghost function EndOf(cfg: Config, env: nat -> Input, n: nat): Outcome {
    match env(n).reply
    case Cancelled => Stopped
    case Failed => Raised
    case Final(text) => Answered(if !IsLast(cfg, env, n) && text == "" && n + 1 >= Cap(cfg) then CAP_TEXT else text)
    case Calls(text, calls) =>
      if !IsLast(cfg, env, n) && calls != [] then Raised
      else Answered(if !IsLast(cfg, env, n) && text == "" && n + 1 >= Cap(cfg) then CAP_TEXT else text)
  }

  /** What a history says of each round: its request, whether the operator stops before it, whether the turn goes
      on after it, and how it ends there otherwise. */
  datatype Tale = Tale(request: nat -> Request, stopped: nat -> bool, goesOn: nat -> bool, end: nat -> Outcome)

  ghost function TaleOf(cfg: Config, env: nat -> Input): Tale {
    Tale((n: nat) => Expected(cfg, env, n), (n: nat) => env(n).stopped, (n: nat) => GoesOn(cfg, env, n),
         (n: nat) => EndOf(cfg, env, n))
  }

  ghost predicate WentOn(tale: Tale, n: nat) {
    forall k: nat :: k < n ==> !tale.stopped(k) && tale.goesOn(k)
  }

  /** The turn ends in round `n`: by the stop button before its request, or by what its request brought. */
  ghost predicate EndsIn(tale: Tale, n: nat, turn: (seq<Request>, Outcome)) {
    && WentOn(tale, n)
    && if tale.stopped(n) then |turn.0| == n && turn.1 == Stopped
       else !tale.goesOn(n) && |turn.0| == n + 1 && turn.1 == tale.end(n)
  }

  ghost predicate AsTold(tale: Tale, log: seq<Request>) {
    forall k :: 0 <= k < |log| ==> log[k] == tale.request(k)
  }

  /** The whole turn is as its history tells. */
  ghost predicate Told(tale: Tale, turn: (seq<Request>, Outcome)) {
    AsTold(tale, turn.0) && exists n: nat :: EndsIn(tale, n, turn)
  }

  lemma EndsHere(tale: Tale, log: seq<Request>, sent: seq<Request>, outcome: Outcome)
    requires AsTold(tale, log) && WentOn(tale, |log|)
    requires tale.stopped(|log|) ==> sent == [] && outcome == Stopped
    requires !tale.stopped(|log|) ==>
      !tale.goesOn(|log|) && sent == [tale.request(|log|)] && outcome == tale.end(|log|)
    ensures Told(tale, (log + sent, outcome))
  {
    assert EndsIn(tale, |log|, (log + sent, outcome));
  }

  lemma GoesOnHere(tale: Tale, log: seq<Request>)
    requires AsTold(tale, log) && WentOn(tale, |log|) && !tale.stopped(|log|) && tale.goesOn(|log|)
    ensures AsTold(tale, log + [tale.request(|log|)]) && WentOn(tale, |log| + 1)
  {
  }

  // ----- Calls

  lemma SaidIsMessages(cfg: Config, c: Call)
    ensures Said(cfg, c) == CallMessages(cfg, c)
    ensures Finishes(c) <==> Terminal(c)
    ensures Breaks(cfg, c) <==> CallRaises(cfg, c)
  {
  }

  lemma {:induction false} CallsAre(cfg: Config, st: State, calls: seq<Call>)
    ensures var st' := AfterCalls(cfg, st, calls);
      && st'.messages == st.messages + SaidByAll(cfg, calls)
      && st'.tools == if exists c :: c in calls && Finishes(c) then [] else st.tools
  {
    if calls == [] {
      assert st.messages + [] == st.messages;
    } else {
      var init, c := calls[..|calls| - 1], calls[|calls| - 1];
      assert calls == init + [c];
      CallsAre(cfg, st, init);
      SaidIsMessages(cfg, c);
      Associate(st.messages, SaidByAll(cfg, init), Said(cfg, c));
    }
  }

  lemma NoneBreaks(cfg: Config, calls: seq<Call>)
    ensures AnyRaises(cfg, calls) <==> exists c :: c in calls && Breaks(cfg, c)
  {
    forall c ensures Breaks(cfg, c) <==> CallRaises(cfg, c) {
      SaidIsMessages(cfg, c);
    }
    if i :| 0 <= i < |calls| && CallRaises(cfg, calls[i]) {
      assert calls[i] in calls;
    }
  }

  // ----- Tools

  lemma InitialTools(cfg: Config)
    ensures OpenaiTools(cfg.registry, if cfg.agentTools != [] then Some(cfg.agentTools) else None) == Allowed(cfg)
  {
    var all := (t: string) => cfg.agentTools == [] || t in cfg.agentTools;
    if cfg.agentTools == [] {
      FilterAll(all, cfg.registry);
    } else {
      SameFilter(all, (t: string) => t in cfg.agentTools, cfg.registry);
    }
  }

  lemma {:induction false} FilterAll<T>(p: T -> bool, s: seq<T>)
    requires forall x :: x in s ==> p(x)
    ensures Filter(p, s) == s
  {
    if s != [] {
      assert s[|s| - 1] in s;
      FilterAll(p, s[..|s| - 1]);
    }
  }

  /** The names that are left are those of the agent, and after a narrowing those that write. */
  ghost predicate NamesAre(cfg: Config, narrowed: bool, names: seq<string>) {
    forall t :: t in names <==> t in cfg.agentTools && (narrowed ==> t in WRITE_KEEP)
  }

  lemma NarrowedTools(cfg: Config, st: State, narrowed: bool)
    requires NamesAre(cfg, narrowed, st.names.GetOr([])) && cfg.useTools && !cfg.useMemory
    ensures var st' := Narrow(cfg, st);
      && st'.tools == Writers(cfg) && NamesAre(cfg, true, st'.names.GetOr([]))
      && st'.messages == st.messages + [User(Str(NUDGE_WRITE))] && st'.brake == st.brake
      && st'.didMutate == st.didMutate
  {
    var kept := Keep(st.names);
    FilterIn((n: string) => n in WRITE_KEEP, st.names.GetOr([]));
    assert NamesAre(cfg, true, kept);
    if kept == [] {
      assert forall t :: t !in kept;
      FilterNone((t: string) => t in cfg.agentTools && t in WRITE_KEEP, cfg.registry);
    } else {
      assert kept[0] in kept;
      SameFilter((t: string) => t in cfg.agentTools && t in WRITE_KEEP, (t: string) => t in kept, cfg.registry);
    }
  }

  lemma {:induction false} FilterNone<T>(p: T -> bool, s: seq<T>)
    requires forall x :: x in s ==> !p(x)
    ensures Filter(p, s) == []
  {
    if s != [] {
      assert s[|s| - 1] in s;
      FilterNone(p, s[..|s| - 1]);
    }
  }

  lemma NamesEmptyIff(cfg: Config, env: nat -> Input, n: nat, names: seq<string>)
    requires NamesAre(cfg, NarrowedBefore(cfg, env, n), names) && Wanted(cfg, env, n) != []
    ensures names == [] <==> cfg.agentTools == []
  {
    if cfg.agentTools != [] {
      assert cfg.agentTools[0] in cfg.agentTools;
      if names == [] {
        assert forall t :: t !in names;
        assert NarrowedBefore(cfg, env, n);
        FilterNone((t: string) => t in cfg.agentTools && t in WRITE_KEEP, cfg.registry);
      }
    } else if names != [] {
      FirstIsMember(names);
    }
  }

  // ----- The brakes

  lemma RoundFlags(env: nat -> Input, n: nat)
    requires env(n).reply.Calls?
    ensures var (rounds, round) := (Rounds(env, n + 1), RoundOf(env(n).reply.calls));
      && rounds == Rounds(env, n) + [round]
      && NextBrake(After(Rounds(env, n)), round) == Last(rounds)
    ensures RoundOf(env(n).reply.calls).gotVerify <==> VerifiedIn(env, n)
  {
    var calls := env(n).reply.calls;
    assert Rounds(env, n + 1)[..|Rounds(env, n)|] == Rounds(env, n);
    if c :| c in calls && IsVerify(c.name, c.result) {
      var i :| 0 <= i < |calls| && calls[i] == c;
    }
    if i :| 0 <= i < |calls| && IsVerify(calls[i].name, calls[i].result) {
      assert calls[i] in calls;
    }
  }

  /** What the brakes decide after round `n`, in terms of the history. */
  lemma Decided(env: nat -> Input, n: nat)
    requires env(n).reply.Calls?
    ensures var v := NextBrake(After(Rounds(env, n)), RoundOf(env(n).reply.calls));
      && v.brake == After(Rounds(env, n + 1))
      && (v.forceStop <==> SawAfterVerify(Rounds(env, n + 1)))
      && (v.nudge <==> VerifiedIn(env, n))
      && (v.writeNudge || v.seeCapHit <==> LooksTooLong(env, n))
      && (v.nudge ==> !LooksTooLong(env, n)) && (v.forceStop ==> !LooksTooLong(env, n))
  {
    RoundFlags(env, n);
    var rounds := Rounds(env, n + 1);
    BrakesFireExactly(rounds);
    CountersAreHistory(rounds);
    if Tail(rounds, 3) {
      TailHasLast(rounds, 3);
    }
  }

  lemma TailHasLast(rounds: seq<Round>, n: nat)
    requires Tail(rounds, n) && n > 0
    ensures PlainSee(rounds[|rounds| - 1])
  {
  }

  /** A code agent's state after the brakes, when it had tools. */
  ghost predicate BrakedTo(cfg: Config, env: nat -> Input, n: nat, st: State, st': State) {
    var writes := LooksTooLong(env, n) || WritesTooLate(cfg, env, n);
    var forced := SawAfterVerify(Rounds(env, n + 1));
    && st'.messages == st.messages + Nudges(cfg, env, n)
    && st'.tools == (if forced then [] else if writes then Writers(cfg) else st.tools)
    && st'.didMutate == st.didMutate && st'.brake == After(Rounds(env, n + 1))
    && (!forced ==> NamesAre(cfg, NarrowedBefore(cfg, env, n) || writes, st'.names.GetOr([])))
  }

  /** A code agent's state before the brakes, when it has tools and goes on. */
  ghost predicate Tooled(cfg: Config, env: nat -> Input, n: nat, st: State) {
    && env(n).reply.Calls? && cfg.codeDesk && cfg.useTools && !cfg.useMemory && !FinishedIn(env, n)
    && st.tools != [] && st.tools == Wanted(cfg, env, n) && st.brake == After(Rounds(env, n))
    && NamesAre(cfg, NarrowedBefore(cfg, env, n), st.names.GetOr([]))
    && (st.didMutate <==> MutatedBefore(env, n + 1))
  }

  lemma Braked(cfg: Config, env: nat -> Input, n: nat, st: State)
    requires Tooled(cfg, env, n, st)
    ensures BrakedTo(cfg, env, n, st, AfterBrakes(cfg, st, n, RoundOf(env(n).reply.calls)))
  {
    if SawAfterVerify(Rounds(env, n + 1)) {
      BrakedToNothing(cfg, env, n, st);
    } else if VerifiedIn(env, n) {
      BrakedAfterVerify(cfg, env, n, st);
    } else {
      BrakedAfterLooks(cfg, env, n, st);
    }
  }

  lemma BrakedToNothing(cfg: Config, env: nat -> Input, n: nat, st: State)
    requires Tooled(cfg, env, n, st) && SawAfterVerify(Rounds(env, n + 1))
    ensures BrakedTo(cfg, env, n, st, AfterBrakes(cfg, st, n, RoundOf(env(n).reply.calls)))
  {
    Decided(env, n);
    assert st.messages + [] == st.messages;
  }

  lemma BrakedAfterVerify(cfg: Config, env: nat -> Input, n: nat, st: State)
    requires Tooled(cfg, env, n, st) && VerifiedIn(env, n) && !SawAfterVerify(Rounds(env, n + 1))
    ensures BrakedTo(cfg, env, n, st, AfterBrakes(cfg, st, n, RoundOf(env(n).reply.calls)))
  {
    Decided(env, n);
    ChangedIsMutated(env, n + 1);
    NamesEmptyIff(cfg, env, n, st.names.GetOr([]));
    NudgedDone(cfg, env, n, st.(brake := After(Rounds(env, n + 1))));
  }

  lemma BrakedAfterLooks(cfg: Config, env: nat -> Input, n: nat, st: State)
    requires Tooled(cfg, env, n, st) && !VerifiedIn(env, n) && !SawAfterVerify(Rounds(env, n + 1))
    ensures BrakedTo(cfg, env, n, st, AfterBrakes(cfg, st, n, RoundOf(env(n).reply.calls)))
  {
    Decided(env, n);
    ChangedIsMutated(env, n + 1);
    NamesEmptyIff(cfg, env, n, st.names.GetOr([]));
    var st0 := st.(brake := After(Rounds(env, n + 1)));
    if LooksTooLong(env, n) || WritesTooLate(cfg, env, n) {
      NarrowedTools(cfg, st0, NarrowedBefore(cfg, env, n));
      assert AfterBrakes(cfg, st, n, RoundOf(env(n).reply.calls)) == Narrow(cfg, st0);
      assert Nudges(cfg, env, n) == [User(Str(NUDGE_WRITE))];
    } else {
      assert AfterBrakes(cfg, st, n, RoundOf(env(n).reply.calls)) == st0;
      assert st.messages + Nudges(cfg, env, n) == st.messages;
    }
  }

  /** After a verify: the order to finish, and the one to write if nothing has been changed. */
  lemma NudgedDone(cfg: Config, env: nat -> Input, n: nat, st: State)
    requires cfg.useTools && !cfg.useMemory && NamesAre(cfg, NarrowedBefore(cfg, env, n), st.names.GetOr([]))
    ensures var d, w := [User(Str(NUDGE_DONE))], [User(Str(NUDGE_WRITE))];
      var st' := Narrow(cfg, st.(messages := st.messages + d));
      && st'.messages == st.messages + (d + w) && d + [] == d
      && st'.tools == Writers(cfg) && NamesAre(cfg, true, st'.names.GetOr([]))
  {
    var d, w := [User(Str(NUDGE_DONE))], [User(Str(NUDGE_WRITE))];
    NarrowedTools(cfg, st.(messages := st.messages + d), NarrowedBefore(cfg, env, n));
    Associate(st.messages, d, w);
  }

  // ----- The loop

  /** The running state tells what the history tells. */
  ghost predicate Tells(cfg: Config, env: nat -> Input, n: nat, st: State) {
    && st.messages == Spoken(cfg, env, n)
    && st.tools == (if HasTools(cfg, env, n) then Wanted(cfg, env, n) else [])
    && (st.didMutate <==> MutatedBefore(env, n))
    && (st.tools != [] ==> NamesAre(cfg, NarrowedBefore(cfg, env, n), st.names.GetOr([])))
    && (cfg.codeDesk && st.tools != [] ==> st.brake == After(Rounds(env, n)))
  }

  lemma StartTells(cfg: Config, env: nat -> Input)
    ensures Tells(cfg, env, 0, Initial(cfg))
  {
    InitialTools(cfg);
  }

  lemma HistoryGrows(cfg: Config, env: nat -> Input, n: nat)
    ensures FinishedBefore(env, n + 1) <==> FinishedBefore(env, n) || FinishedIn(env, n)
    ensures NarrowedBefore(cfg, env, n + 1)
      <==> NarrowedBefore(cfg, env, n) || (cfg.codeDesk && (LooksTooLong(env, n) || WritesTooLate(cfg, env, n)))
  {
    if FinishedIn(env, n) {
      assert FinishedBefore(env, n + 1);
    }
    if cfg.codeDesk && (LooksTooLong(env, n) || WritesTooLate(cfg, env, n)) {
      assert NarrowedBefore(cfg, env, n + 1);
    }
  }

  lemma ForcedGrows(cfg: Config, env: nat -> Input, n: nat)
    ensures ForcedBefore(cfg, env, n + 1)
      <==> ForcedBefore(cfg, env, n) || (cfg.codeDesk && SawAfterVerify(Rounds(env, n + 1)))
  {
  }

  lemma MutatedGrows(env: nat -> Input, n: nat)
    requires env(n).reply.Calls?
    ensures MutatedBefore(env, n + 1) <==> MutatedBefore(env, n) || AnyMutates(env(n).reply.calls)
  {
    if i :| 0 <= i < |env(n).reply.calls| && Mutates(env(n).reply.calls[i]) {
      assert MutatedBefore(env, n + 1);
    }
  }

  /** The state between the calls and the brakes. */
  ghost predicate Called(cfg: Config, env: nat -> Input, n: nat, st: State) {
    && env(n).reply.Calls?
    && st.messages == Spoken(cfg, env, n)
                      + ([Assistant(env(n).reply.text, Ids(env(n).reply.calls))] + SaidByAll(cfg, env(n).reply.calls))
    && st.tools == (if FinishedIn(env, n) then [] else Wanted(cfg, env, n)) && Wanted(cfg, env, n) != []
    && (st.didMutate <==> MutatedBefore(env, n + 1))
    && NamesAre(cfg, NarrowedBefore(cfg, env, n), st.names.GetOr([]))
    && (cfg.codeDesk ==> st.brake == After(Rounds(env, n)))
  }

  lemma CallsTell(cfg: Config, env: nat -> Input, n: nat, st: State)
    requires Tells(cfg, env, n, st) && !IsLast(cfg, env, n) && env(n).reply.Calls?
    ensures var asked := st.(messages := st.messages + [Assistant(env(n).reply.text, Ids(env(n).reply.calls))]);
      Called(cfg, env, n, AfterCalls(cfg, asked, env(n).reply.calls))
  {
    var reply := env(n).reply;
    var a := [Assistant(reply.text, Ids(reply.calls))];
    CallsAre(cfg, st.(messages := st.messages + a), reply.calls);
    CallsKeepTools(cfg, st.(messages := st.messages + a), reply.calls);
    MutatedGrows(env, n);
    Associate(st.messages, a, SaidByAll(cfg, reply.calls));
  }

  lemma BrakesTell(cfg: Config, env: nat -> Input, n: nat, st: State)
    requires Called(cfg, env, n, st) && HasTools(cfg, env, n)
    ensures Tells(cfg, env, n + 1, AfterBrakes(cfg, st, n, RoundOf(env(n).reply.calls)))
  {
    HistoryGrows(cfg, env, n);
    ForcedGrows(cfg, env, n);
    if cfg.codeDesk && !FinishedIn(env, n) {
      Braked(cfg, env, n, st);
    } else {
      assert st.messages + [] == st.messages;
    }
  }

  lemma RoundTells(cfg: Config, env: nat -> Input, n: nat, st: State)
    requires Tells(cfg, env, n, st) && !IsLast(cfg, env, n) && env(n).reply.Calls?
    ensures Tells(cfg, env, n + 1, AfterRound(cfg, st, n, env(n).reply.text, env(n).reply.calls))
  {
    CallsTell(cfg, env, n, st);
    var asked := st.(messages := st.messages + [Assistant(env(n).reply.text, Ids(env(n).reply.calls))]);
    BrakesTell(cfg, env, n, AfterCalls(cfg, asked, env(n).reply.calls));
  }

  lemma StepGoes(cfg: Config, env: nat -> Input, n: nat, st: State)
    requires Tells(cfg, env, n, st) && n <= ToolCap(cfg) && !env(n).stopped && GoesOn(cfg, env, n)
    ensures var step := StepOf(cfg, env(n), n, st);
      step.Go? && Tells(cfg, env, n + 1, step.st) && Expected(cfg, env, n) == Request(st.messages, st.tools, false)
  {
    NoneBreaks(cfg, env(n).reply.calls);
    RoundTells(cfg, env, n, st);
  }

  lemma StepEnds(cfg: Config, env: nat -> Input, n: nat, st: State)
    requires Tells(cfg, env, n, st) && n <= ToolCap(cfg) && (env(n).stopped || !GoesOn(cfg, env, n))
    ensures var step := StepOf(cfg, env(n), n, st);
      && step.Stop? && (env(n).stopped ==> step.sent == [] && step.outcome == Stopped)
      && (!env(n).stopped ==> step.sent == [Expected(cfg, env, n)] && step.outcome == EndOf(cfg, env, n))
  {
    if env(n).reply.Calls? {
      NoneBreaks(cfg, env(n).reply.calls);
    }
  }

  /** One round by its history. */
  lemma StepTells(cfg: Config, env: nat -> Input, n: nat, st: State)
    requires Tells(cfg, env, n, st) && n <= ToolCap(cfg)
    ensures var step := StepOf(cfg, env(n), n, st);
      && (step.Go? <==> !env(n).stopped && GoesOn(cfg, env, n))
      && (step.Go? ==>
          Tells(cfg, env, n + 1, step.st) && Expected(cfg, env, n) == Request(st.messages, st.tools, false))
      && (step.Stop? && env(n).stopped ==> step.sent == [] && step.outcome == Stopped)
      && (step.Stop? && !env(n).stopped ==>
          step.sent == [Expected(cfg, env, n)] && step.outcome == EndOf(cfg, env, n))
  {
    if env(n).stopped || !GoesOn(cfg, env, n) {
      StepEnds(cfg, env, n, st);
    } else {
      StepGoes(cfg, env, n, st);
    }
  }

  /** What each round keeps or hands over, the turn has in the end. */
  lemma {:induction false} RunInduction(cfg: Config, env: nat -> Input, inv: (State, seq<Request>) -> bool,
                                        good: ((seq<Request>, Outcome)) -> bool, st: State, log: seq<Request>)
    requires |log| <= ToolCap(cfg) && inv(st, log)
    requires forall s, l :: inv(s, l) && |l| <= ToolCap(cfg) ==> Hands(cfg, env, inv, good, s, l)
    ensures good(Run(cfg, env, |log|, st, log))
    decreases ToolCap(cfg) - |log|
  {
    assert Hands(cfg, env, inv, good, st, log);
    var step := StepOf(cfg, env(|log|), |log|, st);
    if step.Go? {
      RunInduction(cfg, env, inv, good, step.st, log + [Request(st.messages, st.tools, false)]);
    }
  }

  ghost predicate Hands(cfg: Config, env: nat -> Input, inv: (State, seq<Request>) -> bool,
                        good: ((seq<Request>, Outcome)) -> bool, st: State, log: seq<Request>) {
    match StepOf(cfg, env(|log|), |log|, st)
    case Go(next) => |log| < ToolCap(cfg) && inv(next, log + [Request(st.messages, st.tools, false)])
    case Stop(sent, outcome) => good((log + sent, outcome))
  }

  ghost predicate TellsSoFar(cfg: Config, env: nat -> Input, st: State, log: seq<Request>) {
    Tells(cfg, env, |log|, st) && AsTold(TaleOf(cfg, env), log) && WentOn(TaleOf(cfg, env), |log|)
  }

  lemma RoundHands(cfg: Config, env: nat -> Input, inv: (State, seq<Request>) -> bool,
                   good: ((seq<Request>, Outcome)) -> bool, st: State, log: seq<Request>)
    requires |log| <= ToolCap(cfg) && TellsSoFar(cfg, env, st, log)
    requires forall s, l :: inv(s, l) <==> TellsSoFar(cfg, env, s, l)
    requires forall turn :: good(turn) <==> Told(TaleOf(cfg, env), turn)
    ensures Hands(cfg, env, inv, good, st, log)
  {
    StepTells(cfg, env, |log|, st);
    match StepOf(cfg, env(|log|), |log|, st)
    case Go(next) =>
      GoesOnHere(TaleOf(cfg, env), log);
      assert TellsSoFar(cfg, env, next, log + [Expected(cfg, env, |log|)]);
    case Stop(sent, outcome) =>
      EndsHere(TaleOf(cfg, env), log, sent, outcome);
  }

  /** Every request of every turn is the one its history tells, and so are the end and the outcome. */
  lemma TurnIsItsHistory(cfg: Config, env: nat -> Input)
    ensures Told(TaleOf(cfg, env), Run(cfg, env, 0, Initial(cfg), []))
  {
    var inv := (st: State, log: seq<Request>) => TellsSoFar(cfg, env, st, log);
    var good := (turn: (seq<Request>, Outcome)) => Told(TaleOf(cfg, env), turn);
    StartTells(cfg, env);
    forall st, log | inv(st, log) && |log| <= ToolCap(cfg) ensures Hands(cfg, env, inv, good, st, log) {
      RoundHands(cfg, env, inv, good, st, log);
    }
    RunInduction(cfg, env, inv, good, Initial(cfg), []);
  }

  /** The turn's requests, one by one: each offers exactly what is wanted, unless it is the last one. */
  lemma OffersExactly(cfg: Config, env: nat -> Input, k: nat)
    requires k < |Run(cfg, env, 0, Initial(cfg), []).0|
    ensures var r := Run(cfg, env, 0, Initial(cfg), []).0[k];
      && (r.last <==> IsLast(cfg, env, k))
      && (r.last ==> r.offered == []) && (!r.last ==> r.offered == Wanted(cfg, env, k) != [])
  {
    TurnIsItsHistory(cfg, env);
  }

  /** When the next request is the last one, after a round that was not. */
  lemma LastExactly(cfg: Config, env: nat -> Input, k: nat)
    requires !IsLast(cfg, env, k) && k < Cap(cfg)
    ensures IsLast(cfg, env, k + 1)
      <==> k + 1 == Cap(cfg) || FinishedIn(env, k) || (cfg.codeDesk && SawAfterVerify(Rounds(env, k + 1)))
           || Wanted(cfg, env, k + 1) == []
  {
    HistoryGrows(cfg, env, k);
    ForcedGrows(cfg, env, k);
  }
}
