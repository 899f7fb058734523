/** Rules over a model's answers: `rule_one` and `veto` of `cockpit/backend/app/hiroshima_decide.py`. */
module Veto {
  import opened Lists
  import opened Strings

  const HARD_IDS := {
    "PROC-MEMFD", "PROC-DELETED", "PERS-PRELOAD", "PERS-UID0", "PROC-FAKEKTH", "PROC-HIDDEN", "PROC-TMPNET",
    "PROC-INPUT",
    "NET-NMAP", "NET-NMAP-SVC", "NET-LISTEN-EXT", "NET-ESTAB", "NET-SSH-UNIT", "NET-PROMISC"}
  const NOISE_IDS := {
    "NET-UFW-NOISE", "PCAP-NOISE", "PCAP-CONFIRM", "PCAP-MISS", "PROC-HIDDEN-NOISE", "PERS-SUID", "ROOT-TAINT",
    "ROOT-RKH", "NET-DNS"}
  const DUAL_IDS := {"FIM-AIDE", "FIM-DEBSUMS", "PERS-PRELOAD", "PCAP-EXTRA", "PROC-TMPNET"}
  const HYGIENE_IDS := {"FIM-AIDE", "HELPER-STALE", "F-007", "HOST-SURICATA"}
  const OURS_COMM := {
    "grok", "chromium", "chrome", "chrome_crashpad_handler", "firefox", "firefox-esr", "firefox-bin", "brave",
    "brave-browser", "x-www-browser", "cursor", "networkmanager", "systemd-timesyncd", "systemd-resolved",
    "wpa_supplicant", "nm-applier", "uvicorn", "python3", "python3.14", "node", "mainthread", "docker-pr",
    "containerd", "container"}

  datatype Finding = Finding(id: string, severity: string)

  datatype Digest = Digest(
    findings: seq<Finding>, verdict: string, envClass: string, hiddenKept: int, pcapExtra: int,
    vsSs: string, vsNmap: string, estabComm: seq<string>)

  /** A Python float; the model's text is converted without a check, so every kind of float can arrive. */
  datatype Float = Number(value: real) | PlusInfinity | MinusInfinity | NotANumber

  /** Python's `<` and `>=` against a number: both fail for not-a-number. */
  predicate Below(x: Float, bound: real) {
    x.MinusInfinity? || (x.Number? && x.value < bound)
  }

  predicate AtLeast(x: Float, bound: real) {
    x.PlusInfinity? || (x.Number? && x.value >= bound)
  }

  datatype Answer = Answer(choice: Option<string>, noul: Option<Float>, score: Option<Float>, veto: Option<string>)
  const BLANK := Answer(None, None, None, None)

  type Answers = map<string, Answer>
  type Sevs = map<string, string>

  // ----- Severities by id: the last row wins

  function LastSeverity(findings: seq<Finding>, id: string): Option<string> {
    if findings == [] then None else
      var f := findings[|findings| - 1];
      if f.id != "" && f.id == id then Some(f.severity) else LastSeverity(findings[..|findings| - 1], id)
  }

  ghost predicate IsSevs(sevs: Sevs, findings: seq<Finding>) {
    && (forall id :: id in sevs <==> LastSeverity(findings, id).Some?)
    && (forall id :: id in sevs ==> sevs[id] == LastSeverity(findings, id).value)
  }

  method FindingSevs(findings: seq<Finding>) returns (sevs: Sevs)
    ensures IsSevs(sevs, findings)
  {
    sevs := map[];
    for k := 0 to |findings|
      invariant IsSevs(sevs, findings[..k])
    {
      Snoc(findings, k);
      if findings[k].id != "" {
        sevs := sevs[findings[k].id := findings[k].severity];
      }
    }
    Whole(findings);
  }

  predicate Lifts(severity: string) {
    severity == "WARN" || severity == "ALERT"
  }

  predicate Raised(sevs: Sevs, id: string) {
    id in sevs && Lifts(sevs[id])
  }

  predicate FalcoRaised(sevs: Sevs) { Raised(sevs, "HOST-FALCO") }

  predicate SuricataRaised(sevs: Sevs) { Raised(sevs, "HOST-SURICATA") }

  /** A raised sensor with a raised file, memory or network domain beside it. */
  predicate SecondDomain(sevs: Sevs) {
    (exists id :: id in sevs && id in DUAL_IDS && Lifts(sevs[id]))
    || exists id :: id in sevs && StartsWith(id, "NET-") && id !in NOISE_IDS && Lifts(sevs[id])
  }

  predicate Hard(d: Digest, sevs: Sevs) {
    (exists id :: id in sevs && id in HARD_IDS) || d.verdict == "ALERT"
  }

  predicate Roaming(d: Digest) {
    d.envClass == "tether" || d.envClass == "travel"
  }

  // ----- What the severities mean in the findings themselves

  predicate HasHard(d: Digest) {
    (exists k :: 0 <= k < |d.findings| && d.findings[k].id in HARD_IDS) || d.verdict == "ALERT"
  }

  ghost predicate IsLast(findings: seq<Finding>, k: nat, id: string) {
    k < |findings| && findings[k].id == id && forall j :: k < j < |findings| ==> findings[j].id != id
  }

  /** The last row of the id is WARN or ALERT; an earlier one is forgotten. */
  ghost predicate LastRowLifts(findings: seq<Finding>, id: string) {
    exists k: nat :: IsLast(findings, k, id) && Lifts(findings[k].severity)
  }

  lemma {:induction false} LastSeverityIsLast(findings: seq<Finding>, id: string)
    requires id != ""
    ensures LastSeverity(findings, id).None? ==> forall k :: 0 <= k < |findings| ==> findings[k].id != id
    ensures LastSeverity(findings, id).Some? ==>
      exists k: nat :: IsLast(findings, k, id) && findings[k].severity == LastSeverity(findings, id).value
  {
    if findings != [] {
      var n := |findings| - 1;
      if findings[n].id == id {
        assert IsLast(findings, n, id);
      } else {
        LastSeverityIsLast(findings[..n], id);
        if LastSeverity(findings[..n], id).Some? {
          var k: nat :| IsLast(findings[..n], k, id) && findings[k].severity == LastSeverity(findings, id).value;
          assert IsLast(findings, k, id);
        } else {
          assert forall k :: 0 <= k < n ==> findings[k] == findings[..n][k];
        }
      }
    }
  }

  lemma RaisedIffLastRowLifts(findings: seq<Finding>, sevs: Sevs, id: string)
    requires IsSevs(sevs, findings) && id != ""
    ensures Raised(sevs, id) <==> LastRowLifts(findings, id)
  {
    LastSeverityIsLast(findings, id);
    if LastRowLifts(findings, id) {
      var k: nat :| IsLast(findings, k, id) && Lifts(findings[k].severity);
      assert LastSeverity(findings, id).Some?;
      var m: nat :| IsLast(findings, m, id) && findings[m].severity == LastSeverity(findings, id).value;
      assert k == m;
    }
  }

  lemma HardIffHasHard(d: Digest, sevs: Sevs)
    requires IsSevs(sevs, d.findings)
    ensures Hard(d, sevs) <==> HasHard(d)
  {
    if id :| id in sevs && id in HARD_IDS {
      LastSeverityIsLast(d.findings, id);
    }
    if k :| 0 <= k < |d.findings| && d.findings[k].id in HARD_IDS {
      LastSeverityIsLast(d.findings, d.findings[k].id);
      assert d.findings[k].id in sevs;
    }
  }

  // ----- The rules' own answers

  predicate Dual(d: Digest, sevs: Sevs) {
    d.hiddenKept > 0 || d.pcapExtra > 0 || d.vsSs == "nmap_not_in_ss" || d.vsNmap == "nmap_not_in_ss"
    || (FalcoRaised(sevs) && SecondDomain(sevs)) || (SuricataRaised(sevs) && SecondDomain(sevs))
  }

  predicate Troubled(d: Digest) {
    exists k :: 0 <= k < |d.findings| && (d.findings[k].severity == "WARN" || d.findings[k].severity == "ERROR")
  }

  predicate Unusual(sevs: Sevs) {
    exists id :: id in sevs && id !in NOISE_IDS && id !in HYGIENE_IDS
  }

  function RuleClass(d: Digest, sevs: Sevs): string {
    if Hard(d, sevs) then "alert_family"
    else if FalcoRaised(sevs) || SuricataRaised(sevs) then "candidate"
    else if Roaming(d) then "env_shift"
    else if Troubled(d) && Unusual(sevs) then "candidate"
    else "noise"
  }

  function RulePlaybook(d: Digest, sevs: Sevs): string {
    if Hard(d, sevs) then "ask_operator"
    else if "HELPER-STALE" in sevs then "install-kalived-helper"
    else if "FIM-AIDE" in sevs then "aide-init"
    else "none"
  }

  function RuleSeverity(d: Digest, sevs: Sevs): real {
    if Hard(d, sevs) then 5.0 else if Roaming(d) || d.verdict == "WARN" then 2.0
    else if d.verdict == "ERROR" then 3.0 else 1.0
  }

  predicate AllOurs(comms: seq<string>) {
    forall k :: 0 <= k < |comms| ==> Lower(comms[k]) in OURS_COMM
  }

  /** `rule_one` for the five questions of the protocol. */
  function RuleOne(d: Digest, sevs: Sevs, question: string): Answer {
    match question
    case "class" => BLANK.(choice := Some(RuleClass(d, sevs)))
    case "ours" => BLANK.(noul := Some(Number(if AllOurs(d.estabComm) then 0.85 else 0.35)))
    case "dual" => BLANK.(noul := Some(Number(if Dual(d, sevs) then 0.8 else 0.08)))
    case "severity" => BLANK.(score := Some(Number(RuleSeverity(d, sevs))))
    case "playbook" => BLANK.(choice := Some(RulePlaybook(d, sevs)))
    case _ => BLANK
  }

  function RuleAnswers(d: Digest, sevs: Sevs): Answers {
    map q | q in {"class", "ours", "dual", "severity", "playbook"} :: RuleOne(d, sevs, q)
  }

  // ----- The veto

  function Get(answers: Answers, question: string): Answer {
    if question in answers then answers[question] else BLANK
  }

  function Asked(answers: Answers): string {
    var c := Get(answers, "class").choice.GetOr("");
    if c == "" then "noise" else c
  }

  function DualLevel(answers: Answers): Float {
    Get(answers, "dual").noul.GetOr(Number(0.0))
  }

  /** The class after the veto, and the veto's reason. */
  function Judged(d: Digest, sevs: Sevs, asked: string, dual: Float): (string, string) {
    if Hard(d, sevs) then ("alert_family", "hard-artifact")
    else if FalcoRaised(sevs) then (if d.verdict == "ALERT" then "alert_family" else "candidate", "falco")
    else if SuricataRaised(sevs) then (if d.verdict == "ALERT" then "alert_family" else "candidate", "suricata")
    else if asked == "alert_family" && Below(dual, 0.5)
    then (if Roaming(d) then "env_shift" else "candidate", "no-dual")
    else if Roaming(d) && asked == "noise" then ("env_shift", "env-shift")
    else (asked, "")
  }

  predicate Remediates(playbook: Option<string>) {
    playbook == Some("aide-init") || playbook == Some("isolate-dst")
  }

  function Vetoed(d: Digest, sevs: Sevs, answers: Answers): Answers {
    var (cls, why) := Judged(d, sevs, Asked(answers), DualLevel(answers));
    var base := Get(answers, "class");
    var judged := answers["class" := base.(choice := Some(cls), veto := if why != "" then Some(why) else base.veto)];
    var pb := Get(answers, "playbook");
    if Hard(d, sevs) && Remediates(pb.choice)
    then judged["playbook" := pb.(choice := Some("ask_operator"), veto := Some("no-remediate-on-alert"))]
    else judged
  }

  function ClassOf(answers: Answers): string {
    Get(answers, "class").choice.GetOr("")
  }

  function PlaybookOf(answers: Answers): Option<string> {
    Get(answers, "playbook").choice
  }

  ghost predicate SensorRaised(d: Digest) {
    LastRowLifts(d.findings, "HOST-FALCO") || LastRowLifts(d.findings, "HOST-SURICATA")
  }

  /** What holds after a veto, in terms of the findings alone. */
  ghost predicate Guarantees(d: Digest, answers: Answers, out: Answers) {
    && (HasHard(d) ==> !Remediates(PlaybookOf(out)))
    && (ClassOf(out) == "alert_family"
        <==> HasHard(d) || (!SensorRaised(d) && Asked(answers) == "alert_family" && !Below(DualLevel(answers), 0.5)))
    && (ClassOf(out) == "noise" <==> !HasHard(d) && !SensorRaised(d) && !Roaming(d) && Asked(answers) == "noise")
  }

  /** The edit of a copied answer map; everything but class and playbook stays. */
  method ApplyVeto(d: Digest, answers: Answers) returns (out: Answers, ghost sevs: Sevs)
    ensures IsSevs(sevs, d.findings) && out == Vetoed(d, sevs, answers) && Guarantees(d, answers, out)
    ensures forall q :: q != "class" && q != "playbook" ==>
      (q in out <==> q in answers) && Get(out, q) == Get(answers, q)
  {
    var idSevs := FindingSevs(d.findings);
    sevs := idSevs;
    out := answers;
    var dual := DualLevel(out);
    var cls, why := Asked(out), "";
    var hard := Hard(d, idSevs);
    if hard {
      cls, why := "alert_family", "hard-artifact";
    } else if FalcoRaised(idSevs) {
      cls, why := if d.verdict == "ALERT" then "alert_family" else "candidate", "falco";
    } else if SuricataRaised(idSevs) {
      cls, why := if d.verdict == "ALERT" then "alert_family" else "candidate", "suricata";
    } else if cls == "alert_family" && Below(dual, 0.5) {
      cls, why := if Roaming(d) then "env_shift" else "candidate", "no-dual";
    } else if Roaming(d) && cls == "noise" {
      cls, why := "env_shift", "env-shift";
    }
    var base := Get(out, "class").(choice := Some(cls));
    if why != "" {
      base := base.(veto := Some(why));
    }
    out := out["class" := base];
    if hard {
      var pb := Get(out, "playbook");
      if Remediates(pb.choice) {
        out := out["playbook" := pb.(choice := Some("ask_operator"), veto := Some("no-remediate-on-alert"))];
      }
    }
    VetoGuarantees(d, sevs, answers);
  }

  /** Whatever the model answers: a hard artefact or an ALERT verdict is always alert_family and never
      remediated; alert_family otherwise wants the model's word, no raised sensor and a dual answer that is not
      below 0.5; and noise wants none of all that and no new network. */
  lemma VetoGuarantees(d: Digest, sevs: Sevs, answers: Answers)
    requires IsSevs(sevs, d.findings)
    ensures Guarantees(d, answers, Vetoed(d, sevs, answers))
  {
    HardIffHasHard(d, sevs);
    RaisedIffLastRowLifts(d.findings, sevs, "HOST-FALCO");
    RaisedIffLastRowLifts(d.findings, sevs, "HOST-SURICATA");
    JudgedIs(d, sevs, Asked(answers), DualLevel(answers));
  }

  lemma JudgedIs(d: Digest, sevs: Sevs, asked: string, dual: Float)
    ensures Judged(d, sevs, asked, dual).0 == "alert_family"
      <==> Hard(d, sevs)
           || (!FalcoRaised(sevs) && !SuricataRaised(sevs) && asked == "alert_family" && !Below(dual, 0.5))
    ensures Judged(d, sevs, asked, dual).0 == "noise"
      <==> !Hard(d, sevs) && !FalcoRaised(sevs) && !SuricataRaised(sevs) && !Roaming(d) && asked == "noise"
  {
  }

  /** The rule of two domains: without a hard artefact or an ALERT verdict, alert_family means that no sensor is
      raised, the model says so, and its dual answer reaches 0.5. */
  ghost predicate WantsTwoDomains(d: Digest, answers: Answers, out: Answers) {
    ClassOf(out) == "alert_family"
    <==> HasHard(d) || (!SensorRaised(d) && Asked(answers) == "alert_family" && AtLeast(DualLevel(answers), 0.5))
  }

  /** Where the rule holds for one digest. */
  lemma TwoDomainsIff(d: Digest, sevs: Sevs, answers: Answers)
    requires IsSevs(sevs, d.findings)
    ensures WantsTwoDomains(d, answers, Vetoed(d, sevs, answers))
      <==> !DualLevel(answers).NotANumber? || Asked(answers) != "alert_family" || HasHard(d) || SensorRaised(d)
  {
    VetoGuarantees(d, sevs, answers);
  }

  ghost predicate AlwaysWantsTwoDomains(answers: Answers) {
    forall d: Digest, sevs: Sevs :: IsSevs(sevs, d.findings) ==> WantsTwoDomains(d, answers, Vetoed(d, sevs, answers))
  }

  /** The model's answers meet the rule whatever was scanned exactly when the dual answer is a number, or
      alert_family is not what they say. */
  lemma TwoDomainsAlwaysIff(answers: Answers)
    ensures AlwaysWantsTwoDomains(answers) <==> !DualLevel(answers).NotANumber? || Asked(answers) != "alert_family"
  {
    if !DualLevel(answers).NotANumber? || Asked(answers) != "alert_family" {
      forall d: Digest, sevs: Sevs | IsSevs(sevs, d.findings)
        ensures WantsTwoDomains(d, answers, Vetoed(d, sevs, answers))
      {
        TwoDomainsIff(d, sevs, answers);
      }
    } else {
      TwoDomainsIff(QUIET, map[], answers);
    }
  }

  const QUIET := Digest([], "CLEAN", "home", 0, 0, "", "", [])
  const NAN_DUAL: Answers := map[
    "class" := BLANK.(choice := Some("alert_family")), "dual" := BLANK.(noul := Some(NotANumber))]

  /** On a clean scan a dual answer that is no number lets alert_family through, and the veto leaves no mark. */
  lemma NotANumberPasses()
    ensures IsSevs(map[], QUIET.findings) && !HasHard(QUIET) && !SensorRaised(QUIET) && !Roaming(QUIET)
    ensures !AtLeast(DualLevel(NAN_DUAL), 0.5) && Vetoed(QUIET, map[], NAN_DUAL) == NAN_DUAL
    ensures ClassOf(NAN_DUAL) == "alert_family" && !AlwaysWantsTwoDomains(NAN_DUAL)
  {
    TwoDomainsAlwaysIff(NAN_DUAL);
  }

  /** A second veto changes nothing. */
  lemma VetoTwice(d: Digest, sevs: Sevs, answers: Answers)
    ensures Vetoed(d, sevs, Vetoed(d, sevs, answers)) == Vetoed(d, sevs, answers)
  {
  }

  /** The rules' own answers already respect the veto: it changes none of their choices. */
  lemma RulesAgreeWithVeto(d: Digest, sevs: Sevs)
    ensures ClassOf(Vetoed(d, sevs, RuleAnswers(d, sevs))) == RuleClass(d, sevs)
    ensures PlaybookOf(Vetoed(d, sevs, RuleAnswers(d, sevs))) == Some(RulePlaybook(d, sevs))
  {
  }

  /** With the rules' answers alone, alert_family means exactly a hard artefact or an ALERT verdict. */
  lemma RulesAlertIffHard(d: Digest, sevs: Sevs)
    requires IsSevs(sevs, d.findings)
    ensures ClassOf(Vetoed(d, sevs, RuleAnswers(d, sevs))) == "alert_family" <==> HasHard(d)
  {
    RulesAgreeWithVeto(d, sevs);
    HardIffHasHard(d, sevs);
  }

  // ----- Classes, playbooks and reasons, from the findings alone

  /** What is not answered counts as noise, and as no second domain. */
  lemma UnansweredIs(answers: Answers, c: string)
    requires c != ""
    ensures Asked(answers) == c <==>
      if "class" in answers && answers["class"].choice !in {None, Some("")} then answers["class"].choice == Some(c)
      else c == "noise"
    ensures "dual" !in answers || answers["dual"].noul == None ==> DualLevel(answers) == Number(0.0)
    ensures forall x :: "dual" in answers && answers["dual"].noul == Some(x) ==> DualLevel(answers) == x
  {
  }

  /** Without a hard artefact or an ALERT verdict: the four classes after a veto. */
  ghost predicate ClassesAre(d: Digest, answers: Answers, out: string) {
    var asked := Asked(answers);
    var single := asked == "alert_family" && Below(DualLevel(answers), 0.5);
    var away := d.envClass == "tether" || d.envClass == "travel";
    if SensorRaised(d) then out == "candidate"
    else if single then out == (if away then "env_shift" else "candidate")
    else if away && asked == "noise" then out == "env_shift"
    else out == asked
  }

  /** The class after a veto, exactly. */
  lemma VetoedClassIs(d: Digest, sevs: Sevs, answers: Answers)
    requires IsSevs(sevs, d.findings)
    ensures var out := ClassOf(Vetoed(d, sevs, answers));
      if HasHard(d) then out == "alert_family" else ClassesAre(d, answers, out)
  {
    HardIffHasHard(d, sevs);
    RaisedIffLastRowLifts(d.findings, sevs, "HOST-FALCO");
    RaisedIffLastRowLifts(d.findings, sevs, "HOST-SURICATA");
  }

  /** A playbook that would change the machine is withdrawn exactly beside a hard artefact or an ALERT verdict;
      every other playbook stays. */
  lemma VetoedPlaybookIs(d: Digest, sevs: Sevs, answers: Answers)
    requires IsSevs(sevs, d.findings)
    ensures var (before, after) := (PlaybookOf(answers), PlaybookOf(Vetoed(d, sevs, answers)));
      after == if HasHard(d) && (before == Some("aide-init") || before == Some("isolate-dst"))
               then Some("ask_operator") else before
  {
    HardIffHasHard(d, sevs);
  }

  /** The veto leaves its reason exactly when it decides. */
  lemma VetoedReasonIs(d: Digest, sevs: Sevs, answers: Answers)
    requires IsSevs(sevs, d.findings)
    ensures Get(Vetoed(d, sevs, answers), "class").veto ==
      if HasHard(d) then Some("hard-artifact")
      else if LastRowLifts(d.findings, "HOST-FALCO") then Some("falco")
      else if LastRowLifts(d.findings, "HOST-SURICATA") then Some("suricata")
      else if Asked(answers) == "alert_family" && Below(DualLevel(answers), 0.5) then Some("no-dual")
      else if (d.envClass == "tether" || d.envClass == "travel") && Asked(answers) == "noise" then Some("env-shift")
      else Get(answers, "class").veto
  {
    HardIffHasHard(d, sevs);
    RaisedIffLastRowLifts(d.findings, sevs, "HOST-FALCO");
    RaisedIffLastRowLifts(d.findings, sevs, "HOST-SURICATA");
  }

  ghost predicate Named(d: Digest, id: string) {
    exists f :: f in d.findings && f.id == id
  }

  lemma InSevsIffNamed(d: Digest, sevs: Sevs, id: string)
    requires IsSevs(sevs, d.findings) && id != ""
    ensures id in sevs <==> Named(d, id)
  {
    LastSeverityIsLast(d.findings, id);
    if f :| f in d.findings && f.id == id {
      var k :| 0 <= k < |d.findings| && d.findings[k] == f;
    }
    if id in sevs {
      var k: nat :| IsLast(d.findings, k, id) && d.findings[k].severity == LastSeverity(d.findings, id).value;
      assert d.findings[k] in d.findings;
    }
  }

  /** Something went wrong that is neither known noise nor hygiene. */
  ghost predicate Puzzling(d: Digest) {
    && (exists f :: f in d.findings && (f.severity == "WARN" || f.severity == "ERROR"))
    && (exists f :: f in d.findings && f.id != "" && f.id !in NOISE_IDS && f.id !in HYGIENE_IDS)
  }

  lemma NoEmptyId(d: Digest, sevs: Sevs, id: string)
    requires IsSevs(sevs, d.findings) && id in sevs
    ensures id != ""
  {
    EmptyHasNoSeverity(d.findings);
  }

  lemma {:induction false} EmptyHasNoSeverity(findings: seq<Finding>)
    ensures LastSeverity(findings, "").None?
  {
    if findings != [] {
      EmptyHasNoSeverity(findings[..|findings| - 1]);
    }
  }

  lemma PuzzlingIs(d: Digest, sevs: Sevs)
    requires IsSevs(sevs, d.findings)
    ensures Troubled(d) && Unusual(sevs) <==> Puzzling(d)
  {
    if id :| id in sevs && id !in NOISE_IDS && id !in HYGIENE_IDS {
      NoEmptyId(d, sevs, id);
      InSevsIffNamed(d, sevs, id);
    }
    if f :| f in d.findings && f.id != "" && f.id !in NOISE_IDS && f.id !in HYGIENE_IDS {
      InSevsIffNamed(d, sevs, f.id);
    }
    if k :| 0 <= k < |d.findings| && (d.findings[k].severity == "WARN" || d.findings[k].severity == "ERROR") {
      assert d.findings[k] in d.findings;
    }
    if f :| f in d.findings && (f.severity == "WARN" || f.severity == "ERROR") {
      var k :| 0 <= k < |d.findings| && d.findings[k] == f;
    }
  }

  /** The rules' own class and playbook, from the findings alone. */
  lemma RuleChoicesAre(d: Digest, sevs: Sevs)
    requires IsSevs(sevs, d.findings)
    ensures RuleClass(d, sevs) ==
      if HasHard(d) then "alert_family"
      else if SensorRaised(d) then "candidate"
      else if d.envClass == "tether" || d.envClass == "travel" then "env_shift"
      else if Puzzling(d) then "candidate" else "noise"
    ensures RulePlaybook(d, sevs) ==
      if HasHard(d) then "ask_operator"
      else if Named(d, "HELPER-STALE") then "install-kalived-helper"
      else if Named(d, "FIM-AIDE") then "aide-init" else "none"
  {
    HardIffHasHard(d, sevs);
    RaisedIffLastRowLifts(d.findings, sevs, "HOST-FALCO");
    RaisedIffLastRowLifts(d.findings, sevs, "HOST-SURICATA");
    PuzzlingIs(d, sevs);
    InSevsIffNamed(d, sevs, "HELPER-STALE");
    InSevsIffNamed(d, sevs, "FIM-AIDE");
  }

  /** A second domain beside a raised sensor: a file or memory finding, or a network finding that is no noise. */
  ghost predicate RaisedBeside(d: Digest) {
    exists id :: id != "" && (id in DUAL_IDS || ("NET-" <= id && id !in NOISE_IDS)) && LastRowLifts(d.findings, id)
  }

  lemma SecondDomainIs(d: Digest, sevs: Sevs)
    requires IsSevs(sevs, d.findings)
    ensures SecondDomain(sevs) <==> RaisedBeside(d)
  {
    if id :| id in sevs && id in DUAL_IDS && Lifts(sevs[id]) {
      RaisedIffLastRowLifts(d.findings, sevs, id);
    }
    if id :| id in sevs && StartsWith(id, "NET-") && id !in NOISE_IDS && Lifts(sevs[id]) {
      RaisedIffLastRowLifts(d.findings, sevs, id);
    }
    if id :| id != "" && (id in DUAL_IDS || ("NET-" <= id && id !in NOISE_IDS)) && LastRowLifts(d.findings, id) {
      RaisedIffLastRowLifts(d.findings, sevs, id);
      assert id in sevs && Lifts(sevs[id]);
    }
  }

  /** The rules call two domains exactly on a hidden process, an extra flow, a disagreement of the two port lists,
      or a raised sensor with a second raised domain; the level then passes the veto's test, else it does not. */
  lemma RuleDualIs(d: Digest, sevs: Sevs)
    requires IsSevs(sevs, d.findings)
    ensures AtLeast(DualLevel(RuleAnswers(d, sevs)), 0.5) <==>
      d.hiddenKept > 0 || d.pcapExtra > 0 || d.vsSs == "nmap_not_in_ss" || d.vsNmap == "nmap_not_in_ss"
      || (SensorRaised(d) && RaisedBeside(d))
  {
    RaisedIffLastRowLifts(d.findings, sevs, "HOST-FALCO");
    RaisedIffLastRowLifts(d.findings, sevs, "HOST-SURICATA");
    SecondDomainIs(d, sevs);
  }

  /** The rules' score, and their word on the established traffic. */
  lemma RuleScoresAre(d: Digest, sevs: Sevs)
    requires IsSevs(sevs, d.findings)
    ensures Get(RuleAnswers(d, sevs), "severity").score == Some(Number(
      if HasHard(d) then 5.0
      else if d.envClass == "tether" || d.envClass == "travel" || d.verdict == "WARN" then 2.0
      else if d.verdict == "ERROR" then 3.0 else 1.0))
    ensures Get(RuleAnswers(d, sevs), "ours").noul.Some?
    ensures AtLeast(Get(RuleAnswers(d, sevs), "ours").noul.value, 0.5)
      <==> forall c :: c in d.estabComm ==> Lower(c) in OURS_COMM
  {
    HardIffHasHard(d, sevs);
    forall c | c in d.estabComm ensures exists k :: 0 <= k < |d.estabComm| && d.estabComm[k] == c {
    }
    if k :| 0 <= k < |d.estabComm| && Lower(d.estabComm[k]) !in OURS_COMM {
      assert d.estabComm[k] in d.estabComm;
    }
  }
}
