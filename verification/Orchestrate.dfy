/** When the build loop should stop: `cockpit/backend/app/orchestrate.py`. */
module Orchestrate {
  import opened Lists

  const SEE := {"repo_glob", "repo_grep", "repo_read", "ping", "repo_git"}
  const EDIT := {"repo_edit", "repo_write", "iframe_write"}
  const WRITE_KEEP := {"repo_write", "repo_edit", "repo_bash", "preview_serve", "preview_set", "repo_git"}
  const FAILABLE := {"repo_bash", "repo_edit", "repo_write", "preview_serve", "preview_set", "repo_git"}
  const SEE_CAP := 4
  const WRITE_NUDGE_AT := 3

  /** What a tool returned; a flag stands for the truth of the JSON field. */
  datatype Result =
    | NotAnObject
    | Obj(error: bool, exitCode: Option<int>, cancelled: bool, timeout: bool, listening: bool,
          url: bool, preview: bool, ok: bool, action: string, status: string,
          dispatch: bool, agent: string, text: string)

  /** `action` is the `action` argument of a call, empty when it is missing. */
  predicate IsSee(name: string, action: string) {
    if name == "repo_git" then action != "commit" else name in SEE
  }

  predicate IsEdit(name: string, action: string) {
    if name == "repo_git" then action == "commit" else name in EDIT
  }

  predicate IsVerify(name: string, r: Result) {
    r.Obj? && !r.error &&
    if name == "repo_bash" then r.exitCode == Some(0) && !r.cancelled
    else if name == "preview_serve" then r.listening || r.url
    else if name == "preview_set" then r.preview || r.url || r.ok
    else name == "repo_git" && r.ok && r.action == "commit"
  }

  predicate IsFail(name: string, r: Result) {
    r.Obj? &&
    if r.error then name in FAILABLE
    else name == "repo_bash" && (r.exitCode !in {Some(0), None} || r.timeout)
  }

  /** Looking and changing exclude each other. Success and failure do too, but for a shell command that timed out
      with exit code 0, which is both. Otherwise a shell command that ran to its end succeeded or failed by its
      exit code, and an error is a failure of the tools that change something. */
  lemma KindsExclude(name: string, action: string, r: Result)
    ensures !(IsSee(name, action) && IsEdit(name, action))
    ensures IsEdit("repo_git", action) <==> action == "commit"
    ensures IsSee("repo_git", action) <==> action != "commit"
    ensures IsVerify(name, r) && IsFail(name, r) <==>
      name == "repo_bash" && r.Obj? && !r.error && r.exitCode == Some(0) && !r.cancelled && r.timeout
    ensures r.Obj? && !r.error && r.exitCode.Some? && !r.cancelled && !r.timeout ==>
      (IsVerify("repo_bash", r) <==> r.exitCode.value == 0) && (IsFail("repo_bash", r) <==> r.exitCode.value != 0)
    ensures r.Obj? && r.error ==> !IsVerify(name, r) && (IsFail(name, r) <==> name in FAILABLE)
    ensures r.Obj? && !r.error ==>
      && (IsVerify("preview_serve", r) <==> r.listening || r.url)
      && (IsVerify("preview_set", r) <==> r.preview || r.url || r.ok)
      && (IsVerify("repo_git", r) <==> r.ok && r.action == "commit")
    ensures IsVerify(name, r) ==> name in {"repo_bash", "preview_serve", "preview_set", "repo_git"}
    ensures r.Obj? && r.cancelled ==> !IsVerify("repo_bash", r)
    ensures r.Obj? && r.timeout ==> IsFail("repo_bash", r)
  {
  }

  /** One tool round as the brake sees it: names with their `action` arguments, and three flags. */
  datatype Round = Round(calls: seq<(string, string)>, gotVerify: bool, gotEdit: bool, gotFail: bool)

  predicate OnlySee(calls: seq<(string, string)>) {
    calls != [] && forall i :: 0 <= i < |calls| ==> IsSee(calls[i].0, calls[i].1)
  }

  datatype Brake = Brake(verified: bool, seeStreak: nat, seeOnly: nat)
  datatype Verdict = Verdict(brake: Brake, forceStop: bool, nudge: bool, writeNudge: bool, seeCapHit: bool)

  const START := Brake(false, 0, 0)

  function NextBrake(b: Brake, r: Round): Verdict {
    var seeing := OnlySee(r.calls);
    var b' :=
      if r.gotFail then Brake(false, 0, 0)
      else if r.gotVerify then Brake(true, 0, 0)
      else if r.gotEdit then Brake(false, 0, 0)
      else if seeing then Brake(b.verified, if b.verified then b.seeStreak + 1 else b.seeStreak, b.seeOnly + 1)
      else Brake(b.verified, b.seeStreak, 0);
    var force := b'.verified && b'.seeStreak >= 1;
    Verdict(b', force, r.gotVerify && !force,
            !b'.verified && b'.seeOnly >= WRITE_NUDGE_AT && !force,
            !b'.verified && b'.seeOnly >= SEE_CAP && !force)
  }

  // ----- Whole traces

  function After(rounds: seq<Round>): Brake {
    if rounds == [] then START else NextBrake(After(rounds[..|rounds| - 1]), rounds[|rounds| - 1]).brake
  }

  /** The verdict on the last round of a trace. */
  function Last(rounds: seq<Round>): Verdict
    requires rounds != []
  {
    NextBrake(After(rounds[..|rounds| - 1]), rounds[|rounds| - 1])
  }

  predicate Decisive(r: Round) {
    r.gotFail || r.gotVerify || r.gotEdit
  }

  predicate PlainSee(r: Round) {
    !Decisive(r) && OnlySee(r.calls)
  }

  /** Round `k` is the latest decisive one. */
  predicate LatestDecisive(rounds: seq<Round>, k: int) {
    0 <= k < |rounds| && Decisive(rounds[k]) && forall j :: k < j < |rounds| ==> !Decisive(rounds[j])
  }

  /** Fail beats verify beats edit. */
  predicate CountsAsVerify(r: Round) {
    r.gotVerify && !r.gotFail
  }

  /** The latest decisive round counts as a verify. */
  ghost predicate Verified(rounds: seq<Round>) {
    exists k :: LatestDecisive(rounds, k) && CountsAsVerify(rounds[k])
  }

  /** Some plain see-only round follows the latest decisive round, which counts as a verify. */
  ghost predicate SawAfterVerify(rounds: seq<Round>) {
    exists k, j :: LatestDecisive(rounds, k) && CountsAsVerify(rounds[k]) && k < j < |rounds| && PlainSee(rounds[j])
  }

  /** The last `n` rounds are plain see-only. */
  ghost predicate Tail(rounds: seq<Round>, n: nat) {
    n <= |rounds| && forall i :: |rounds| - n <= i < |rounds| ==> PlainSee(rounds[i])
  }

  lemma LatestDecisiveStep(init: seq<Round>, r: Round, k: int)
    ensures LatestDecisive(init + [r], k) <==> if Decisive(r) then k == |init| else LatestDecisive(init, k)
  {
    var rounds := init + [r];
    assert forall i :: 0 <= i < |init| ==> rounds[i] == init[i];
    if LatestDecisive(init, k) && !Decisive(r) {
      forall j | k < j < |rounds| ensures !Decisive(rounds[j]) {
        if j < |init| {
          assert rounds[j] == init[j];
        }
      }
    }
    if LatestDecisive(rounds, k) && k < |init| {
      assert !Decisive(rounds[|init|]);
    }
  }

  lemma VerifiedStep(init: seq<Round>, r: Round)
    ensures Verified(init + [r]) <==> if Decisive(r) then CountsAsVerify(r) else Verified(init)
  {
    forall k ensures LatestDecisive(init + [r], k) <==> if Decisive(r) then k == |init| else LatestDecisive(init, k) {
      LatestDecisiveStep(init, r, k);
    }
    if !Decisive(r) && Verified(init) {
      var k :| LatestDecisive(init, k) && CountsAsVerify(init[k]);
      assert LatestDecisive(init + [r], k) && (init + [r])[k] == init[k];
    }
    if Decisive(r) {
      assert LatestDecisive(init + [r], |init|);
    }
  }

  lemma SawStep(init: seq<Round>, r: Round)
    ensures SawAfterVerify(init + [r]) <==>
      !Decisive(r) && (SawAfterVerify(init) || (PlainSee(r) && Verified(init)))
  {
    var rounds := init + [r];
    forall k ensures LatestDecisive(rounds, k) <==> if Decisive(r) then k == |init| else LatestDecisive(init, k) {
      LatestDecisiveStep(init, r, k);
    }
    if SawAfterVerify(rounds) {
      var k, j :| LatestDecisive(rounds, k) && CountsAsVerify(rounds[k]) && k < j < |rounds| && PlainSee(rounds[j]);
      assert k < |init| && rounds[k] == init[k] && LatestDecisive(init, k);
      if j < |init| {
        assert rounds[j] == init[j];
      }
    }
    if !Decisive(r) && SawAfterVerify(init) {
      var k, j :| LatestDecisive(init, k) && CountsAsVerify(init[k]) && k < j < |init| && PlainSee(init[j]);
      assert rounds[k] == init[k] && rounds[j] == init[j];
    }
    if PlainSee(r) && Verified(init) {
      var k :| LatestDecisive(init, k) && CountsAsVerify(init[k]);
      assert rounds[k] == init[k] && rounds[|init|] == r;
    }
  }

  /** The three counters are functions of the history: last decisive round and see-only tail. */
  lemma {:induction false} CountersAreHistory(rounds: seq<Round>)
    ensures After(rounds).verified <==> Verified(rounds)
    ensures After(rounds).verified ==> (After(rounds).seeStreak >= 1 <==> SawAfterVerify(rounds))
    ensures !After(rounds).verified ==> After(rounds).seeStreak == 0
    ensures SawAfterVerify(rounds) ==> Verified(rounds)
    ensures forall n: nat :: n <= After(rounds).seeOnly <==> Tail(rounds, n)
  {
    if rounds != [] {
      var init, r := rounds[..|rounds| - 1], rounds[|rounds| - 1];
      assert rounds == init + [r];
      CountersAreHistory(init);
      VerifiedStep(init, r);
      SawStep(init, r);
      forall n: nat ensures n <= After(rounds).seeOnly <==> Tail(rounds, n) {
        TailStep(init, r, n);
      }
    }
  }

  lemma TailStep(init: seq<Round>, r: Round, n: nat)
    ensures Tail(init + [r], n) <==> n == 0 || (PlainSee(r) && Tail(init, n - 1))
  {
    var rounds := init + [r];
    if Tail(rounds, n) && n > 0 {
      assert PlainSee(rounds[|init|]);
      forall i | |init| - (n - 1) <= i < |init| ensures PlainSee(init[i]) {
        assert PlainSee(rounds[i]);
      }
    }
    if n > 0 && PlainSee(r) && Tail(init, n - 1) {
      forall i | |rounds| - n <= i < |rounds| ensures PlainSee(rounds[i]) {
        if i < |init| {
          assert PlainSee(init[i]);
        }
      }
    }
  }

  /** Exactly when each brake fires, over every trace. The see-cap never adds anything: at the cap the
      write nudge is already on. A verify always nudges, a failing one too. */
  lemma BrakesFireExactly(rounds: seq<Round>)
    requires rounds != []
    ensures Last(rounds).forceStop <==> SawAfterVerify(rounds)
    ensures Last(rounds).writeNudge <==> !Verified(rounds) && Tail(rounds, WRITE_NUDGE_AT)
    ensures Last(rounds).seeCapHit <==> !Verified(rounds) && Tail(rounds, SEE_CAP)
    ensures Last(rounds).seeCapHit ==> Last(rounds).writeNudge
    ensures Last(rounds).nudge <==> rounds[|rounds| - 1].gotVerify
  {
    CountersAreHistory(rounds);
    assert After(rounds) == Last(rounds).brake;
  }

  /** Up to the first force-stop, one fires exactly at a plain see-only round whose latest earlier
      decisive round counts as a verify. */
  lemma FirstForceStop(rounds: seq<Round>)
    requires rounds != []
    requires forall n :: 0 < n < |rounds| ==> !Last(rounds[..n]).forceStop
    ensures var init, r := rounds[..|rounds| - 1], rounds[|rounds| - 1];
      Last(rounds).forceStop <==> PlainSee(r) && Verified(init)
  {
    var init, r := rounds[..|rounds| - 1], rounds[|rounds| - 1];
    assert rounds == init + [r];
    BrakesFireExactly(rounds);
    SawStep(init, r);
    if init != [] {
      assert init == rounds[..|init|];
      assert !Last(rounds[..|init|]).forceStop;
      BrakesFireExactly(init);
    }
  }

  /** Without the first-force hypothesis that fails: a quiet round that is not see-only still forces. */
  lemma ForceStopPersists() returns (rounds: seq<Round>)
    ensures rounds != [] && Last(rounds).forceStop && !PlainSee(rounds[|rounds| - 1])
  {
    var verify := Round([("repo_bash", "")], true, false, false);
    var see := Round([("repo_read", "")], false, false, false);
    var other := Round([("browser_open", "")], false, false, false);
    rounds := [verify, see, other];
    assert rounds[..2] == [verify, see] && [verify, see][..1] == [verify] && [verify][..0] == [];
    assert After([verify]) == Brake(true, 0, 0);
    assert OnlySee(see.calls);
    assert !IsSee(other.calls[0].0, other.calls[0].1);
    assert After([verify, see]) == Brake(true, 1, 1);
  }
}
