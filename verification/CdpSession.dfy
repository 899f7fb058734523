/** Request/reply correlation of `Cdp` in `cockpit/backend/app/browser_cdp.py`, as a state machine whose
    steps are the atomic sections of caller threads, the event loop and the reader task. */
module CdpSession {
  import opened Lists

  /** A reply object; `id` is the request it names. */
  datatype Reply = Reply(id: int, body: string)

  /** What arrives: text that is no JSON, a value the reader cannot inspect, an event, or a reply. */
  datatype Raw = Garbage | NotAnObject | Event(body: string) | Answer(reply: Reply)

  /** The future of one request in the pending table. */
  datatype Future = Unset | Set(reply: Reply) | Cancelled

  /** The `_send` coroutine of one request. */
  datatype Phase = Issued | Sending | Awaiting | Finished(result: Result)
  datatype Result = Replied(reply: Reply) | TimedOut | SendFailed

  /** The calling thread. */
  datatype Caller = Blocked | Returned(reply: Reply) | Raised

  datatype State = State(
    nid: int, pending: map<int, Future>, phases: map<int, Phase>, callers: map<int, Caller>, reading: bool)

  const START := State(0, map[], map[], map[], true)

  datatype Action =
    | Issue               // the locked section of `call`
    | Register(id: int)   // `_send` begins: the future enters the table
    | SendOk(id: int)     // the socket took the request
    | SendRaises(id: int) // the socket failed; the table entry is never removed
    | Deliver(raw: Raw)   // the reader takes one message
    | Close               // the socket closes or raises under the reader
    | Expire(id: int)     // the 11-second timer cancels the future
    | Resume(id: int)     // `wait_for` ends and the entry is removed
    | Collect(id: int)    // the caller takes the coroutine's result
    | GiveUp(id: int)     // the caller's own 12-second timeout

  predicate InPhase(s: State, id: int, p: Phase) {
    id in s.phases && s.phases[id] == p
  }

  /** A future that already has an outcome refuses another one, which ends the reader. */
  function OnMessage(s: State, raw: Raw): State {
    match raw
    case Garbage => s
    case Event(_) => s
    case NotAnObject => s.(reading := false)
    case Answer(r) =>
      if r.id !in s.pending then s
      else if s.pending[r.id] == Unset then s.(pending := s.pending[r.id := Set(r)])
      else s.(reading := false)
  }

  /** One step; a step that is not enabled changes nothing. */
  function Apply(s: State, a: Action): State {
    match a
    case Issue =>
      var id := s.nid + 1;
      s.(nid := id, phases := s.phases[id := Issued], callers := s.callers[id := Blocked])
    case Register(id) =>
      if InPhase(s, id, Issued) then s.(pending := s.pending[id := Unset], phases := s.phases[id := Sending]) else s
    case SendOk(id) =>
      if InPhase(s, id, Sending) then s.(phases := s.phases[id := Awaiting]) else s
    case SendRaises(id) =>
      if InPhase(s, id, Sending) then s.(phases := s.phases[id := Finished(SendFailed)]) else s
    case Deliver(raw) =>
      if s.reading then OnMessage(s, raw) else s
    case Close => s.(reading := false)
    case Expire(id) =>
      if InPhase(s, id, Awaiting) && id in s.pending && s.pending[id] == Unset
      then s.(pending := s.pending[id := Cancelled]) else s
    case Resume(id) =>
      if InPhase(s, id, Awaiting) && id in s.pending && s.pending[id] != Unset then
        var result := if s.pending[id].Set? then Replied(s.pending[id].reply) else TimedOut;
        s.(pending := s.pending - {id}, phases := s.phases[id := Finished(result)])
      else s
    case Collect(id) =>
      if id in s.callers && s.callers[id] == Blocked && id in s.phases && s.phases[id].Finished? then
        var result := s.phases[id].result;
        s.(callers := s.callers[id := if result.Replied? then Returned(result.reply) else Raised])
      else s
    case GiveUp(id) =>
      if id in s.callers && s.callers[id] == Blocked then s.(callers := s.callers[id := Raised]) else s
  }

  function Run(s: State, actions: seq<Action>): State {
    if actions == [] then s else Apply(Run(s, actions[..|actions| - 1]), actions[|actions| - 1])
  }

  // ----- What every interleaving keeps

  /** The table holds exactly the requests in flight and those whose send raised. */
  predicate Tabled(p: Phase) {
    p == Sending || p == Awaiting || p == Finished(SendFailed)
  }

  /** Ids are issued once, in order; every answer held for a request names that request. */
  ghost predicate Local(s: State, id: int) {
    && (id in s.phases <==> 1 <= id <= s.nid)
    && (id in s.callers <==> id in s.phases)
    && (id in s.pending <==> id in s.phases && Tabled(s.phases[id]))
    && (forall r :: Holds(s, id, r) ==> r.id == id)
  }

  /** The reply `r` is held for request `id`: in its future, in its coroutine or by its caller. */
  ghost predicate Holds(s: State, id: int, r: Reply) {
    || (id in s.pending && s.pending[id] == Set(r))
    || (id in s.phases && s.phases[id] == Finished(Replied(r)))
    || (id in s.callers && s.callers[id] == Returned(r))
  }

  ghost predicate Inv(s: State) {
    s.nid >= 0 && forall id :: Local(s, id)
  }

  /** A step lets a request hold a new reply only by delivering that reply. */
  lemma HoldsStep(s: State, a: Action, id: int, r: Reply)
    requires Holds(Apply(s, a), id, r)
    ensures Holds(s, id, r) || (a == Deliver(Answer(r)) && r.id == id)
  {
  }

  lemma LocalStep(s: State, a: Action, id: int)
    requires s.nid >= 0 && Local(s, id) && (a.Issue? ==> Local(s, s.nid + 1))
    ensures Local(Apply(s, a), id)
  {
    forall r | Holds(Apply(s, a), id, r) ensures r.id == id {
      HoldsStep(s, a, id, r);
    }
  }

  lemma StepKeepsInv(s: State, a: Action)
    requires Inv(s)
    ensures Inv(Apply(s, a))
  {
    forall id ensures Local(Apply(s, a), id) {
      LocalStep(s, a, id);
    }
  }

  lemma {:induction false} RunKeepsInv(actions: seq<Action>)
    ensures Inv(Run(START, actions))
  {
    if actions == [] {
      forall id ensures Local(START, id) {
      }
    } else {
      RunKeepsInv(actions[..|actions| - 1]);
      StepKeepsInv(Run(START, actions[..|actions| - 1]), actions[|actions| - 1]);
    }
  }

  /** A caller that returns a reply returns one the reader delivered, and it names the caller's own request. */
  lemma {:induction false} RepliesAreDelivered(actions: seq<Action>, id: int, r: Reply)
    requires Holds(Run(START, actions), id, r)
    ensures r.id == id && Deliver(Answer(r)) in actions
  {
    assert actions != [];
    var init, a := actions[..|actions| - 1], actions[|actions| - 1];
    HoldsStep(Run(START, init), a, id, r);
    if Holds(Run(START, init), id, r) {
      RepliesAreDelivered(init, id, r);
    }
  }

  /** A new id was never issued before and is not in the table; registering overwrites nothing. */
  lemma IdsAreFresh(actions: seq<Action>, id: int)
    ensures var s := Run(START, actions);
      && s.nid + 1 !in s.phases && s.nid + 1 !in s.pending
      && (InPhase(s, id, Issued) ==> id !in s.pending)
  {
    RunKeepsInv(actions);
    var s := Run(START, actions);
    assert Local(s, s.nid + 1) && Local(s, id);
  }

  /** Some send of the run raised: it was under way when its failure came. */
  ghost predicate SomeSendRaised(actions: seq<Action>) {
    exists k, id :: 0 <= k < |actions| && RaisesAt(actions, k, id)
  }

  ghost predicate RaisesAt(actions: seq<Action>, k: nat, id: int)
    requires k < |actions|
  {
    actions[k] == SendRaises(id) && InPhase(Run(START, actions[..k]), id, Sending)
  }

  ghost predicate InFlight(s: State, id: int) {
    id in s.phases && !s.phases[id].Finished?
  }

  lemma FailureStep(s: State, a: Action, id: int)
    requires Inv(s)
    ensures InPhase(Apply(s, a), id, Finished(SendFailed)) <==>
      InPhase(s, id, Finished(SendFailed)) || (a == SendRaises(id) && InPhase(s, id, Sending))
  {
    assert Local(s, id) && Local(s, s.nid + 1);
  }

  /** A failed send is one that raised earlier in the run. */
  lemma {:induction false} FailedIffRaised(actions: seq<Action>, id: int)
    ensures InPhase(Run(START, actions), id, Finished(SendFailed)) <==>
      exists k :: 0 <= k < |actions| && RaisesAt(actions, k, id)
  {
    if actions != [] {
      var n := |actions| - 1;
      var init := actions[..n];
      RunKeepsInv(init);
      FailedIffRaised(init, id);
      FailureStep(Run(START, init), actions[n], id);
      assert forall k :: 0 <= k < n ==> init[..k] == actions[..k] && init[k] == actions[k];
      if k :| 0 <= k < n && RaisesAt(init, k, id) {
        assert RaisesAt(actions, k, id);
      }
      if k :| 0 <= k < n && RaisesAt(actions, k, id) {
        assert RaisesAt(init, k, id);
      }
      assert InPhase(Run(START, init), id, Sending) && actions[n] == SendRaises(id) <==> RaisesAt(actions, n, id);
    }
  }

  /** "Every pending request is still unfinished" holds exactly while no send has raised. */
  lemma PendingIsInFlightIffNoSendRaised(actions: seq<Action>)
    ensures var s := Run(START, actions);
      (forall id :: id in s.pending ==> InFlight(s, id)) <==> !SomeSendRaised(actions)
  {
    RunKeepsInv(actions);
    var s := Run(START, actions);
    if SomeSendRaised(actions) {
      var k, id :| 0 <= k < |actions| && RaisesAt(actions, k, id);
      FailedIffRaised(actions, id);
      assert Local(s, id);
      assert id in s.pending && !InFlight(s, id);
    } else {
      forall id | id in s.pending ensures InFlight(s, id) {
        FailedIffRaised(actions, id);
        assert Local(s, id) && !InPhase(s, id, Finished(SendFailed));
      }
    }
  }

  /** The shortest leak: one request whose send raises is finished, yet pending. */
  lemma LeakExample() returns (actions: seq<Action>)
    ensures actions == [Issue, Register(1), SendRaises(1)]
    ensures 1 in Run(START, actions).pending && !InFlight(Run(START, actions), 1)
  {
    var one: seq<Action> := [Issue];
    actions := [Issue, Register(1), SendRaises(1)];
    assert one[..0] == [] && [Issue, Register(1)][..1] == one && actions[..2] == [Issue, Register(1)];
    assert Run(START, one) == Apply(START, Issue);
    assert Run(START, [Issue, Register(1)]) == Apply(Apply(START, Issue), Register(1));
  }

  /** The leak: after one failed send the table keeps the entry through every later step. */
  lemma {:induction false} LeakIsForever(s: State, actions: seq<Action>, id: int)
    requires Inv(s) && InPhase(s, id, Finished(SendFailed))
    ensures Inv(Run(s, actions)) && InPhase(Run(s, actions), id, Finished(SendFailed))
    ensures id in Run(s, actions).pending
  {
    if actions != [] {
      var init, a := actions[..|actions| - 1], actions[|actions| - 1];
      LeakIsForever(s, init, id);
      StepKeepsInv(Run(s, init), a);
      assert Local(Run(s, init), id) && Local(Run(s, init), Run(s, init).nid + 1);
    }
    assert Local(Run(s, actions), id);
  }

  /** The message after which no other is read: the socket's end, a value the reader cannot inspect, or a
      reply to a request that already has its outcome. */
  ghost predicate EndsReader(s: State, a: Action) {
    || a == Close
    || a == Deliver(NotAnObject)
    || (a.Deliver? && a.raw.Answer? && a.raw.reply.id in s.pending && s.pending[a.raw.reply.id] != Unset)
  }

  ghost predicate EndsAt(actions: seq<Action>, k: nat)
    requires k < |actions|
  {
    EndsReader(Run(START, actions[..k]), actions[k])
  }

  lemma ReaderStep(s: State, a: Action)
    ensures !Apply(s, a).reading <==> !s.reading || EndsReader(s, a)
  {
  }

  lemma EndsAtPrefix(init: seq<Action>, a: Action, k: nat)
    requires k < |init|
    ensures EndsAt(init, k) <==> EndsAt(init + [a], k)
  {
    assert (init + [a])[..k] == init[..k];
  }

  /** The reader has ended exactly when some step of the run ends it. */
  lemma {:induction false} ReaderHasEndedIff(actions: seq<Action>)
    ensures !Run(START, actions).reading <==> exists k :: 0 <= k < |actions| && EndsAt(actions, k)
  {
    if actions != [] {
      var n := |actions| - 1;
      var init, a := actions[..n], actions[n];
      ReaderHasEndedIff(init);
      ReaderStep(Run(START, init), a);
      assert actions == init + [a];
      if k :| 0 <= k < n && EndsAt(init, k) {
        EndsAtPrefix(init, a, k);
      }
      if k :| 0 <= k < n && EndsAt(actions, k) {
        EndsAtPrefix(init, a, k);
      }
      assert EndsAt(actions, n) <==> EndsReader(Run(START, init), a);
    }
  }

  ghost predicate AnswersAt(actions: seq<Action>, k: nat, id: int)
    requires k < |actions|
  {
    actions[k].Deliver? && actions[k].raw.Answer? && actions[k].raw.reply.id == id
  }

  /** An outcome in the table comes from an earlier reply or from the timer. */
  lemma {:induction false} OutcomeHasCause(actions: seq<Action>, id: int)
    requires id in Run(START, actions).pending && Run(START, actions).pending[id] != Unset
    ensures exists k :: 0 <= k < |actions| && (AnswersAt(actions, k, id) || actions[k] == Expire(id))
  {
    var n := |actions| - 1;
    var init := actions[..n];
    var s := Run(START, init);
    if id in s.pending && s.pending[id] != Unset {
      OutcomeHasCause(init, id);
      var k :| 0 <= k < n && (AnswersAt(init, k, id) || init[k] == Expire(id));
      assert actions[k] == init[k];
      assert AnswersAt(actions, k, id) || actions[k] == Expire(id);
    } else {
      assert AnswersAt(actions, n, id) || actions[n] == Expire(id);
    }
  }

  ghost predicate AnsweredAgain(actions: seq<Action>, k: nat, m: nat, id: int)
    requires k < m < |actions|
  {
    AnswersAt(actions, m, id) && (AnswersAt(actions, k, id) || actions[k] == Expire(id))
  }

  /** In terms of the actions alone: a reader that has ended saw the socket's end, a value that is no object,
      or a reply to a request that had been answered or timed out before. */
  lemma ReaderEndHasCause(actions: seq<Action>)
    requires !Run(START, actions).reading
    ensures Close in actions || Deliver(NotAnObject) in actions
      || exists k, m, id :: 0 <= k < m < |actions| && AnsweredAgain(actions, k, m, id)
  {
    ReaderHasEndedIff(actions);
    var m :| 0 <= m < |actions| && EndsAt(actions, m);
    if actions[m] != Close && actions[m] != Deliver(NotAnObject) {
      var id := actions[m].raw.reply.id;
      OutcomeHasCause(actions[..m], id);
      var k :| 0 <= k < m && (AnswersAt(actions[..m], k, id) || actions[..m][k] == Expire(id));
      assert actions[k] == actions[..m][k];
      assert AnsweredAgain(actions, k, m, id);
    }
  }

  /** The shortest such end of the reader: two replies to one request. A later request then starves. */
  lemma SecondReplyExample(a: string, b: string) returns (actions: seq<Action>)
    ensures actions == [Issue, Register(1), Deliver(Answer(Reply(1, a))), Deliver(Answer(Reply(1, b)))]
    ensures !Run(START, actions).reading
    ensures forall later, r :: !Holds(Run(Run(START, actions), later), 2, r)
  {
    var first, second := Deliver(Answer(Reply(1, a))), Deliver(Answer(Reply(1, b)));
    actions := [Issue, Register(1), first, second];
    assert actions[..3] == [Issue, Register(1), first] && actions[..3][..2] == [Issue, Register(1)];
    assert [Issue, Register(1)][..1] == [Issue] && [Issue][..0] == [];
    assert Run(START, [Issue]) == Apply(START, Issue);
    assert Run(START, [Issue, Register(1)]) == Apply(Apply(START, Issue), Register(1));
    assert Run(START, actions[..3]) == Apply(Run(START, [Issue, Register(1)]), first);
    var s := Run(START, actions);
    assert s == Apply(Run(START, actions[..3]), second);
    forall later, r ensures !Holds(Run(s, later), 2, r) {
      DeadReaderStarves(s, later, 2);
    }
  }

  /** Once the reader has ended, a request without its reply never gets one. */
  lemma {:induction false} DeadReaderStarves(s: State, actions: seq<Action>, id: int)
    requires !s.reading && forall r :: !Holds(s, id, r)
    ensures !Run(s, actions).reading && forall r :: !Holds(Run(s, actions), id, r)
  {
    if actions != [] {
      var init, a := actions[..|actions| - 1], actions[|actions| - 1];
      DeadReaderStarves(s, init, id);
      var t := Run(s, init);
      forall r ensures !Holds(Apply(t, a), id, r) {
        if Holds(Apply(t, a), id, r) {
          HoldsStep(t, a, id, r);
        }
      }
    }
  }

  // ----- Every request gets its own outcome

  /** What can happen to a request: its reply is taken as the first outcome, its timer fires before any, its
      coroutine wakes up, its caller takes the coroutine's result or stops waiting. */
  datatype Event =
    | Takes(reply: Reply)
    | Expires(id: int)
    | Resumes(id: int)
    | Collects(id: int, result: Result)
    | GivesUp(id: int)

  predicate Waits(s: State, id: int) {
    id in s.callers && s.callers[id] == Blocked
  }

  /** In this state this action is that event. */
  predicate Is(e: Event, s: State, a: Action) {
    match e
    case Takes(r) => a == Deliver(Answer(r)) && s.reading && r.id in s.pending && s.pending[r.id] == Unset
    case Expires(id) => a == Expire(id) && InPhase(s, id, Awaiting) && id in s.pending && s.pending[id] == Unset
    case Resumes(id) => a == Resume(id) && InPhase(s, id, Awaiting) && id in s.pending && s.pending[id] != Unset
    case Collects(id, result) => a == Collect(id) && Waits(s, id) && InPhase(s, id, Finished(result))
    case GivesUp(id) => a == GiveUp(id) && Waits(s, id)
  }

  ghost predicate OccursAt(actions: seq<Action>, k: nat, e: Event)
    requires k < |actions|
  {
    Is(e, Run(START, actions[..k]), actions[k])
  }

  ghost predicate Occurs(actions: seq<Action>, e: Event) {
    exists k :: 0 <= k < |actions| && OccursAt(actions, k, e)
  }

  ghost predicate OccursThen(actions: seq<Action>, e: Event, f: Event) {
    exists m :: 0 <= m < |actions| && OccursAt(actions, m, f) && Occurs(actions[..m], e)
  }

  lemma OccursInPrefix(init: seq<Action>, a: Action, k: nat, e: Event)
    requires k < |init|
    ensures OccursAt(init, k, e) <==> OccursAt(init + [a], k, e)
  {
    assert (init + [a])[..k] == init[..k];
  }

  lemma OccursLast(init: seq<Action>, a: Action, e: Event)
    ensures OccursAt(init + [a], |init|, e) <==> Is(e, Run(START, init), a)
  {
    assert (init + [a])[..|init|] == init;
  }

  lemma OccursSnoc(init: seq<Action>, a: Action, e: Event)
    ensures Occurs(init + [a], e) <==> Occurs(init, e) || Is(e, Run(START, init), a)
  {
    OccursLast(init, a, e);
    forall k | 0 <= k < |init| ensures OccursAt(init, k, e) <==> OccursAt(init + [a], k, e) {
      OccursInPrefix(init, a, k, e);
    }
  }

  lemma OccursThenSnoc(init: seq<Action>, a: Action, e: Event, f: Event)
    ensures OccursThen(init + [a], e, f)
      <==> OccursThen(init, e, f) || (Occurs(init, e) && Is(f, Run(START, init), a))
  {
    var actions := init + [a];
    OccursLast(init, a, f);
    assert actions[..|init|] == init;
    forall m | 0 <= m < |init|
      ensures OccursAt(init, m, f) <==> OccursAt(actions, m, f)
      ensures actions[..m] == init[..m]
    {
      OccursInPrefix(init, a, m, f);
    }
  }

  /** The reply is on its way to the caller, or the coroutine ended with it. */
  ghost predicate Answered(s: State, r: Reply) {
    || (r.id in s.pending && s.pending[r.id] == Set(r))
    || InPhase(s, r.id, Finished(Replied(r)))
  }

  ghost predicate Lapsed(s: State, id: int) {
    (id in s.pending && s.pending[id] == Cancelled) || InPhase(s, id, Finished(TimedOut))
  }

  /** An outcome is never replaced or lost. */
  lemma OutcomeStays(s: State, a: Action, r: Reply, id: int, result: Result)
    requires Inv(s)
    ensures Answered(s, r) ==> Answered(Apply(s, a), r)
    ensures Lapsed(s, id) ==> Lapsed(Apply(s, a), id)
    ensures InPhase(s, id, Finished(result)) ==> InPhase(Apply(s, a), id, Finished(result))
  {
    assert Local(s, r.id) && Local(s, id) && Local(s, s.nid + 1);
  }

  lemma OutcomeStarts(s: State, a: Action, r: Reply, id: int)
    ensures Answered(Apply(s, a), r) ==> Answered(s, r) || Is(Takes(r), s, a)
    ensures Lapsed(Apply(s, a), id) ==> Lapsed(s, id) || Is(Expires(id), s, a)
    ensures Is(Takes(r), s, a) ==> Answered(Apply(s, a), r)
    ensures Is(Expires(id), s, a) ==> Lapsed(Apply(s, a), id)
  {
  }

  /** The outcomes in the machine are exactly those that happened. */
  lemma {:induction false} OutcomesAreEvents(actions: seq<Action>, r: Reply, id: int)
    ensures Answered(Run(START, actions), r) <==> Occurs(actions, Takes(r))
    ensures Lapsed(Run(START, actions), id) <==> Occurs(actions, Expires(id))
  {
    if actions != [] {
      var init, a := actions[..|actions| - 1], actions[|actions| - 1];
      assert actions == init + [a];
      OutcomesAreEvents(init, r, id);
      RunKeepsInv(init);
      OutcomeStays(Run(START, init), a, r, id, TimedOut);
      OutcomeStarts(Run(START, init), a, r, id);
      OccursSnoc(init, a, Takes(r));
      OccursSnoc(init, a, Expires(id));
    }
  }

  lemma FinishStep(s: State, a: Action, r: Reply, id: int)
    requires Inv(s)
    ensures InPhase(Apply(s, a), r.id, Finished(Replied(r)))
      <==> InPhase(s, r.id, Finished(Replied(r))) || (Answered(s, r) && Is(Resumes(r.id), s, a))
    ensures InPhase(Apply(s, a), id, Finished(TimedOut))
      <==> InPhase(s, id, Finished(TimedOut)) || (Lapsed(s, id) && Is(Resumes(id), s, a))
  {
    assert Local(s, r.id) && Local(s, id) && Local(s, s.nid + 1);
    assert forall x :: Holds(s, r.id, x) ==> x.id == r.id;
  }

  /** A request finishes with a reply exactly when the reader took that reply as its first outcome and the
      coroutine woke up later; it finishes as timed out exactly when its timer fired first. */
  lemma {:induction false} FinishedIff(actions: seq<Action>, r: Reply, id: int)
    ensures InPhase(Run(START, actions), r.id, Finished(Replied(r)))
      <==> OccursThen(actions, Takes(r), Resumes(r.id))
    ensures InPhase(Run(START, actions), id, Finished(TimedOut)) <==> OccursThen(actions, Expires(id), Resumes(id))
  {
    if actions != [] {
      var init, a := actions[..|actions| - 1], actions[|actions| - 1];
      assert actions == init + [a];
      FinishedIff(init, r, id);
      RunKeepsInv(init);
      OutcomesAreEvents(init, r, id);
      FinishStep(Run(START, init), a, r, id);
      OccursThenSnoc(init, a, Takes(r), Resumes(r.id));
      OccursThenSnoc(init, a, Expires(id), Resumes(id));
    }
  }

  lemma CallerStep(s: State, a: Action, id: int, r: Reply)
    requires Inv(s)
    ensures var t := Apply(s, a);
      id in t.callers && t.callers[id] == Returned(r)
      <==> (id in s.callers && s.callers[id] == Returned(r)) || Is(Collects(id, Replied(r)), s, a)
    ensures var t := Apply(s, a);
      id in t.callers && t.callers[id] == Raised
      <==> (id in s.callers && s.callers[id] == Raised)
           || Is(GivesUp(id), s, a) || Is(Collects(id, TimedOut), s, a) || Is(Collects(id, SendFailed), s, a)
  {
    assert Local(s, id) && Local(s, s.nid + 1);
  }

  /** A caller returns exactly the reply it collects, and raises exactly when it collects a failure or gives up. */
  lemma {:induction false} CallerEndsIff(actions: seq<Action>, id: int, r: Reply)
    ensures var s := Run(START, actions);
      id in s.callers && s.callers[id] == Returned(r) <==> Occurs(actions, Collects(id, Replied(r)))
    ensures var s := Run(START, actions);
      id in s.callers && s.callers[id] == Raised
      <==> Occurs(actions, GivesUp(id))
           || Occurs(actions, Collects(id, TimedOut)) || Occurs(actions, Collects(id, SendFailed))
  {
    if actions != [] {
      var init, a := actions[..|actions| - 1], actions[|actions| - 1];
      assert actions == init + [a];
      CallerEndsIff(init, id, r);
      RunKeepsInv(init);
      CallerStep(Run(START, init), a, id, r);
      OccursSnoc(init, a, Collects(id, Replied(r)));
      OccursSnoc(init, a, GivesUp(id));
      OccursSnoc(init, a, Collects(id, TimedOut));
      OccursSnoc(init, a, Collects(id, SendFailed));
    }
  }

  /** By the actions alone: a request times out only after its timer, and a caller raises only after its own
      timer, a failing send, or its own timeout. */
  lemma FailureHasCause(actions: seq<Action>, id: int)
    ensures InPhase(Run(START, actions), id, Finished(TimedOut)) ==> Expire(id) in actions
    ensures var s := Run(START, actions);
      id in s.callers && s.callers[id] == Raised ==>
        Expire(id) in actions || SendRaises(id) in actions || GiveUp(id) in actions
  {
    var r := Reply(id, "");
    CallerEndsIff(actions, id, r);
    TimeoutHasCause(actions, id);
    if Occurs(actions, Collects(id, TimedOut)) {
      var k :| 0 <= k < |actions| && OccursAt(actions, k, Collects(id, TimedOut));
      TimeoutHasCause(actions[..k], id);
    } else if Occurs(actions, Collects(id, SendFailed)) {
      var k :| 0 <= k < |actions| && OccursAt(actions, k, Collects(id, SendFailed));
      FailedIffRaised(actions[..k], id);
    }
  }

  lemma TimeoutHasCause(actions: seq<Action>, id: int)
    ensures InPhase(Run(START, actions), id, Finished(TimedOut)) ==> Expire(id) in actions
  {
    FinishedIff(actions, Reply(id, ""), id);
  }

  // ----- A call by its actions

  lemma {:induction false} RunConcat(s: State, a: seq<Action>, b: seq<Action>)
    ensures Run(s, a + b) == Run(Run(s, a), b)
  {
    if b == [] {
      assert a + b == a;
    } else {
      var init := b[..|b| - 1];
      assert (a + b)[..|a + b| - 1] == a + init;
      RunConcat(s, a, init);
    }
  }

  /** Steps of other requests, and what does not interfere with this one. */
  predicate Harmless(id: int, a: Action) {
    && a != Register(id) && a != SendOk(id) && a != SendRaises(id) && a != Expire(id)
    && a != Resume(id) && a != Collect(id) && a != GiveUp(id)
    && !(a.Deliver? && a.raw.Answer? && a.raw.reply.id == id)
  }

  /** How far a request is: its phase, its entry in the table, and a caller that waits. */
  ghost predicate IsAt(s: State, id: int, phase: Phase, entry: Option<Future>) {
    && Inv(s) && InPhase(s, id, phase) && Waits(s, id)
    && (if entry.Some? then id in s.pending && s.pending[id] == entry.value else id !in s.pending)
  }

  lemma HarmlessStep(s: State, a: Action, id: int, phase: Phase, entry: Option<Future>)
    requires IsAt(s, id, phase, entry) && Harmless(id, a)
    ensures IsAt(Apply(s, a), id, phase, entry)
  {
    StepKeepsInv(s, a);
    assert Local(s, id) && Local(s, s.nid + 1);
  }

  lemma {:induction false} StaysAt(s: State, actions: seq<Action>, id: int, phase: Phase, entry: Option<Future>)
    requires IsAt(s, id, phase, entry) && forall a :: a in actions ==> Harmless(id, a)
    ensures IsAt(Run(s, actions), id, phase, entry)
  {
    if actions != [] {
      var init := actions[..|actions| - 1];
      assert forall x :: x in init ==> x in actions;
      StaysAt(s, init, id, phase, entry);
      assert actions[|actions| - 1] in actions;
      HarmlessStep(Run(s, init), actions[|actions| - 1], id, phase, entry);
    }
  }

  /** A run of harmless steps, then one step of the request. */
  lemma Advance(s: State, between: seq<Action>, a: Action, id: int, phase: Phase, entry: Option<Future>)
    requires IsAt(s, id, phase, entry) && forall x :: x in between ==> Harmless(id, x)
    ensures IsAt(Run(s, between), id, phase, entry)
    ensures Run(s, between + [a]) == Apply(Run(s, between), a) && Inv(Run(s, between + [a]))
  {
    StaysAt(s, between, id, phase, entry);
    assert (between + [a])[..|between|] == between;
    StepKeepsInv(Run(s, between), a);
  }

  function Issues(actions: seq<Action>): nat {
    Count((a: Action) => a == Issue, actions)
  }

  lemma {:induction false} IdsAreCounted(actions: seq<Action>)
    ensures Run(START, actions).nid == Issues(actions)
  {
    if actions != [] {
      IdsAreCounted(actions[..|actions| - 1]);
    }
  }

  /** By the actions alone: nothing has ended the reader. */
  ghost predicate KeepsReading(actions: seq<Action>) {
    && Close !in actions && Deliver(NotAnObject) !in actions
    && forall k, m, id :: 0 <= k < m < |actions| ==> !AnsweredAgain(actions, k, m, id)
  }

  lemma NewestIsIssued(before: seq<Action>, id: int)
    requires id == Issues(before) + 1
    ensures IsAt(Run(START, before + [Issue]), id, Issued, None)
  {
    RunKeepsInv(before);
    RunKeepsInv(before + [Issue]);
    IdsAreCounted(before);
    assert (before + [Issue])[..|before|] == before;
    assert Local(Run(START, before), id) && Local(Run(START, before + [Issue]), id);
  }

  /** The steps of one request among those of others. */
  datatype Part = Part(others: seq<Action>, own: Action)

  function Steps(p: Part): seq<Action> {
    p.others + [p.own]
  }

  ghost predicate Fits(p: Part, id: int, own: Action) {
    p.own == own && forall a :: a in p.others ==> Harmless(id, a)
  }

  lemma PartMoves(s: State, p: Part, id: int, phase: Phase, entry: Option<Future>)
    requires IsAt(s, id, phase, entry) && Fits(p, id, p.own)
    ensures IsAt(Run(s, p.others), id, phase, entry)
    ensures Run(s, Steps(p)) == Apply(Run(s, p.others), p.own) && Inv(Run(s, Steps(p)))
  {
    Advance(s, p.others, p.own, id, phase, entry);
  }

  lemma StartsSending(s: State, p: Part, id: int)
    requires IsAt(s, id, Issued, None) && Fits(p, id, Register(id))
    ensures IsAt(Run(s, Steps(p)), id, Sending, Some(Unset))
  {
    PartMoves(s, p, id, Issued, None);
  }

  lemma IsSent(s: State, p: Part, id: int, entry: Future)
    requires IsAt(s, id, Sending, Some(entry)) && Fits(p, id, SendOk(id))
    ensures IsAt(Run(s, Steps(p)), id, Awaiting, Some(entry))
  {
    PartMoves(s, p, id, Sending, Some(entry));
  }

  lemma GetsReply(s: State, p: Part, r: Reply, phase: Phase)
    requires IsAt(s, r.id, phase, Some(Unset)) && Fits(p, r.id, Deliver(Answer(r))) && Run(s, p.others).reading
    ensures IsAt(Run(s, Steps(p)), r.id, phase, Some(Set(r)))
  {
    PartMoves(s, p, r.id, phase, Some(Unset));
  }

  lemma Ends(s: State, p: Part, q: Part, r: Reply)
    requires IsAt(s, r.id, Awaiting, Some(Set(r))) && Fits(p, r.id, Resume(r.id)) && Fits(q, r.id, Collect(r.id))
    ensures var t := Run(Run(s, Steps(p)), Steps(q)); r.id in t.callers && t.callers[r.id] == Returned(r)
  {
    PartMoves(s, p, r.id, Awaiting, Some(Set(r)));
    PartMoves(Run(s, Steps(p)), q, r.id, Finished(Replied(r)), None);
  }

  lemma StillReading(actions: seq<Action>)
    requires KeepsReading(actions)
    ensures Run(START, actions).reading
  {
    if !Run(START, actions).reading {
      ReaderEndHasCause(actions);
    }
  }

  /** Before the own steps of a call. */
  function CallStart(before: seq<Action>, register: Part): seq<Action> {
    before + [Issue] + Steps(register)
  }

  /** A call that is sent and answered, in either order, then resumed and collected. Whatever others do in
      between, and whatever happened before, its caller returns exactly its own reply. */
  lemma CallReturnsItsReply(before: seq<Action>, r: Reply, parts: seq<Part>, sentFirst: bool)
    requires |parts| == 5 && r.id == Issues(before) + 1
    requires Fits(parts[0], r.id, Register(r.id))
    requires Fits(parts[1], r.id, if sentFirst then SendOk(r.id) else Deliver(Answer(r)))
    requires Fits(parts[2], r.id, if sentFirst then Deliver(Answer(r)) else SendOk(r.id))
    requires Fits(parts[3], r.id, Resume(r.id)) && Fits(parts[4], r.id, Collect(r.id))
    requires KeepsReading(CallStart(before, parts[0]) + if sentFirst then Steps(parts[1]) + parts[2].others
                          else parts[1].others)
    ensures var actions := CallStart(before, parts[0]) + Steps(parts[1]) + Steps(parts[2]) + Steps(parts[3])
                           + Steps(parts[4]);
      var s := Run(START, actions);
      r.id in s.callers && s.callers[r.id] == Returned(r)
  {
    var c0 := CallStart(before, parts[0]);
    var c1 := c0 + Steps(parts[1]);
    var c2 := c1 + Steps(parts[2]);
    NewestIsIssued(before, r.id);
    RunConcat(START, before + [Issue], Steps(parts[0]));
    StartsSending(Run(START, before + [Issue]), parts[0], r.id);
    RunConcat(START, c0, Steps(parts[1]));
    RunConcat(START, c1, Steps(parts[2]));
    if sentFirst {
      IsSent(Run(START, c0), parts[1], r.id, Unset);
      Associate(c0, Steps(parts[1]), parts[2].others);
      StillReading(c1 + parts[2].others);
      RunConcat(START, c1, parts[2].others);
      GetsReply(Run(START, c1), parts[2], r, Awaiting);
    } else {
      StillReading(c0 + parts[1].others);
      RunConcat(START, c0, parts[1].others);
      GetsReply(Run(START, c0), parts[1], r, Sending);
      IsSent(Run(START, c1), parts[2], r.id, Set(r));
    }
    Ends(Run(START, c2), parts[3], parts[4], r);
    RunConcat(START, c2, Steps(parts[3]));
    RunConcat(START, c2 + Steps(parts[3]), Steps(parts[4]));
  }

  // ----- The object

  /** The fields of `Cdp`; coroutines and callers are ghost. Each method is one atomic section. */
  class Cdp {
    var nid: int
    var pending: map<int, Future>
    var reading: bool
    ghost var phases: map<int, Phase>
    ghost var callers: map<int, Caller>

    ghost function View(): State
      reads this
    {
      State(nid, pending, phases, callers, reading)
    }

    constructor ()
      ensures View() == START
    {
      nid, pending, reading := 0, map[], true;
      phases, callers := map[], map[];
    }

    method NextId() returns (id: int)
      modifies this
      ensures View() == Apply(old(View()), Issue) && id == nid
    {
      nid := nid + 1;
      id := nid;
      phases, callers := phases[id := Issued], callers[id := Blocked];
    }

    method BeginSend(id: int)
      requires InPhase(View(), id, Issued)
      modifies this
      ensures View() == Apply(old(View()), Register(id))
    {
      pending := pending[id := Unset];
      phases := phases[id := Sending];
    }

    method Read(raw: Raw)
      requires reading
      modifies this
      ensures View() == Apply(old(View()), Deliver(raw))
    {
      match raw
      case Garbage =>
      case Event(_) =>
      case NotAnObject => reading := false;
      case Answer(r) =>
        if r.id in pending {
          if pending[r.id] == Unset {
            pending := pending[r.id := Set(r)];
          } else {
            reading := false;
          }
        }
    }

    /** The connection ends under the reader. */
    method LoseSocket()
      modifies this
      ensures View() == Apply(old(View()), Close)
    {
      reading := false;
    }

    method EndWait(id: int) returns (result: Result)
      requires InPhase(View(), id, Awaiting) && id in pending && pending[id] != Unset
      modifies this
      ensures View() == Apply(old(View()), Resume(id)) && InPhase(View(), id, Finished(result))
    {
      result := if pending[id].Set? then Replied(pending[id].reply) else TimedOut;
      pending := pending - {id};
      phases := phases[id := Finished(result)];
    }
  }
}
