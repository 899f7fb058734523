/** The sheet of actions after a scan: `scripts/lib/scan_actions.py`, composed in `cockpit/backend/app/hiroshima.py`. */
module ScanActions {
  import opened Lists
  import opened Strings

  const CONFIRM_RUNS := {"aide-init-ack-stale", "isolate-dst", "isolate-undo"}
  const TEXT_ROW_IDS := {"travel-harden", "runtime-apt", "helper-pty", "isolate-skip", "suricata-seen"}

  datatype Finding = Finding(id: string, severity: string, detail: string)
  datatype Protocol = Protocol(isolatable: bool, rollback: bool, envClass: string)
  datatype Doc = Doc(findings: seq<Finding>, protocol: Protocol)

  datatype Row = Row(id: string, title: string, why: string, run: Option<string>, confirm: bool, text: Option<string>)

  /** What the texts of a row say is left to the caller. */
  datatype Words = Words(title: string, why: string, text: Option<string>)

  /** Values of another type than string count as absent. */
  datatype Pick = Pick(id: Option<string>, run: Option<string>, why: Option<string>,
                       text: Option<string>, title: Option<string>, first: bool)

  // ----- Deleted executables

  datatype Deleted = NoneDeleted | Unknown | Packaged

  const DPKG_PREFIXES := ["/usr/bin/", "/usr/sbin/", "/usr/lib/", "/usr/libexec/", "/bin/", "/sbin/", "/lib/",
    "/lib64/"]
  const UNPACKAGED_PREFIXES := ["/tmp/", "/var/tmp/", "/dev/shm/", "/home/", "/root/", "/run/", "/opt/", "memfd:"]

  predicate HasPrefix(p: string, prefixes: seq<string>) {
    exists k :: 0 <= k < |prefixes| && StartsWith(p, prefixes[k])
  }

  predicate IsDpkgExe(path: string) {
    var p := Strip(path);
    p != "" && !Contains(p, "memfd:") && !HasPrefix(p, UNPACKAGED_PREFIXES) && HasPrefix(p, DPKG_PREFIXES)
  }

  predicate IsDeletion(f: Finding) {
    f.id == "PROC-DELETED" || f.id == "PROC-MEMFD"
  }

  /** Every executable of the finding is package-owned, and it names at least one. */
  predicate PackageOwned(exes: string -> seq<string>, f: Finding) {
    f.id != "PROC-MEMFD" && !Contains(f.detail, "memfd:") && exes(f.detail) != []
    && forall k :: 0 <= k < |exes(f.detail)| ==> IsDpkgExe(exes(f.detail)[k])
  }

  ghost predicate AllOwned(exes: string -> seq<string>, hits: seq<Finding>) {
    forall f :: f in hits ==> PackageOwned(exes, f)
  }

  ghost function KindOf(exes: string -> seq<string>, findings: seq<Finding>): Deleted {
    if Filter(IsDeletion, findings) == [] then NoneDeleted
    else if AllOwned(exes, Filter(IsDeletion, findings)) then Packaged else Unknown
  }

  /** `exes` is the pattern that reads the executables out of a detail. */
  method DeletedKind(exes: string -> seq<string>, findings: seq<Finding>) returns (kind: Deleted)
    ensures kind == KindOf(exes, findings)
  {
    var hits := Filter(IsDeletion, findings);
    if hits == [] {
      return NoneDeleted;
    }
    var unpackaged, sawPath := false, false;
    for k := 0 to |hits|
      invariant unpackaged <==> !AllOwned(exes, hits[..k])
      invariant !unpackaged && k > 0 ==> sawPath
    {
      Snoc(hits, k);
      var bad, named := Inspect(exes, hits[k]);
      unpackaged, sawPath := unpackaged || bad, sawPath || named;
    }
    Whole(hits);
    return if unpackaged || !sawPath then Unknown else Packaged;
  }

  method Inspect(exes: string -> seq<string>, f: Finding) returns (unpackaged: bool, sawPath: bool)
    ensures unpackaged <==> !PackageOwned(exes, f)
    ensures sawPath <==> exes(f.detail) != []
  {
    unpackaged := f.id == "PROC-MEMFD" || Contains(f.detail, "memfd:") || exes(f.detail) == [];
    var paths := exes(f.detail);
    sawPath := false;
    for k := 0 to |paths|
      invariant sawPath <==> k > 0
      invariant unpackaged <==> (f.id == "PROC-MEMFD" || Contains(f.detail, "memfd:") || paths == []
                                || exists j :: 0 <= j < k && !IsDpkgExe(paths[j]))
    {
      sawPath := true;
      if !IsDpkgExe(paths[k]) {
        unpackaged := true;
      }
    }
  }

  // ----- The rule table

  predicate Named(doc: Doc, id: string) {
    exists k :: 0 <= k < |doc.findings| && doc.findings[k].id == id
  }

  predicate IdentityAlert(doc: Doc) {
    exists k :: 0 <= k < |doc.findings|
      && doc.findings[k].id == "FIM-AIDE" && Lower(doc.findings[k].severity) == "alert"
  }

  predicate SuricataRaised(doc: Doc) {
    exists k :: 0 <= k < |doc.findings| && doc.findings[k].id == "HOST-SURICATA"
      && Lower(doc.findings[k].severity) in {"warn", "alert"}
  }

  predicate Roaming(p: Protocol) {
    p.envClass == "travel" || p.envClass == "tether"
  }

  /** The entries of the table, and the row that closes an empty sheet. */
  datatype Rule = AskOperator | CloseDeleted | AckStale | IsolateDst | TravelHarden | IsolateUndo
    | HelperPty | SuricataSeen | RuntimeApt | Close

  const TABLE := [AskOperator, CloseDeleted, AckStale, IsolateDst, TravelHarden, IsolateUndo, HelperPty,
    SuricataSeen, RuntimeApt]

  function Name(rule: Rule): string {
    match rule
    case AskOperator => "ask-operator"
    case CloseDeleted => "close-deleted-dpkg"
    case AckStale => "ack-stale"
    case IsolateDst => "isolate-dst"
    case TravelHarden => "travel-harden"
    case IsolateUndo => "isolate-undo"
    case HelperPty => "helper-pty"
    case SuricataSeen => "suricata-seen"
    case RuntimeApt => "runtime-apt"
    case Close => "close"
  }

  function RunOf(rule: Rule): Option<string> {
    match rule
    case AckStale => Some("aide-init-ack-stale")
    case IsolateDst => Some("isolate-dst")
    case IsolateUndo => Some("isolate-undo")
    case _ => None
  }

  /** When the table has a row. */
  predicate Wanted(doc: Doc, deleted: Deleted, rule: Rule) {
    match rule
    case AskOperator => deleted == Unknown
    case CloseDeleted => deleted == Packaged
    case AckStale => Named(doc, "FIM-AIDE-STALE") && !IdentityAlert(doc)
    case IsolateDst => AtHome(doc.protocol)
    case TravelHarden => !AtHome(doc.protocol) && (Roaming(doc.protocol) || doc.protocol.isolatable)
    case IsolateUndo => doc.protocol.rollback
    case HelperPty => Named(doc, "HELPER-STALE")
    case SuricataSeen => SuricataRaised(doc)
    case RuntimeApt => Named(doc, "HOST-RUNTIME")
    case Close => false
  }

  predicate AtHome(p: Protocol) {
    p.isolatable && p.envClass == "home"
  }

  /** `_row`: a run outside the closed list is dropped, and a row without a run wants no confirmation. */
  function MakeRow(id: string, w: Words, run: Option<string>): Row {
    var kept := if run.Some? && run.value in CONFIRM_RUNS then run else None;
    Row(id, w.title, w.why, kept, kept.Some?, w.text)
  }

  function RuleRow(words: Rule -> Words, rule: Rule): Row {
    MakeRow(Name(rule), words(rule), RunOf(rule))
  }

  function TableRows(words: Rule -> Words, rules: seq<Rule>): seq<Row> {
    Map((rule: Rule) => RuleRow(words, rule), rules)
  }

  function WantedAmong(doc: Doc, deleted: Deleted, rules: seq<Rule>): seq<Rule> {
    Filter((rule: Rule) => Wanted(doc, deleted, rule), rules)
  }

  /** The entries the table wants, or the closing one. */
  function Rules(doc: Doc, deleted: Deleted): seq<Rule> {
    if WantedAmong(doc, deleted, TABLE) == [] then [Close] else WantedAmong(doc, deleted, TABLE)
  }

  /** One `if` of the source: the row of the next entry, when its condition holds. */
  method Consider(words: Rule -> Words, ghost doc: Doc, ghost deleted: Deleted, rows: seq<Row>, ghost before: seq<Rule>,
                  rule: Rule, condition: bool)
    returns (out: seq<Row>, ghost after: seq<Rule>)
    requires condition == Wanted(doc, deleted, rule)
    requires rows == TableRows(words, WantedAmong(doc, deleted, before))
    ensures after == before + [rule]
    ensures out == TableRows(words, WantedAmong(doc, deleted, after))
  {
    after := before + [rule];
    FilterSnoc((x: Rule) => Wanted(doc, deleted, x), before, rule);
    out := if condition then rows + [RuleRow(words, rule)] else rows;
  }

  method HostRows(words: Rule -> Words, doc: Doc, kind: Deleted) returns (rows: seq<Row>, ghost tried: seq<Rule>)
    ensures tried == [AskOperator, CloseDeleted, AckStale]
    ensures rows == TableRows(words, WantedAmong(doc, kind, tried))
  {
    rows, tried := [], [];
    rows, tried := Consider(words, doc, kind, rows, tried, AskOperator, kind == Unknown);
    rows, tried := Consider(words, doc, kind, rows, tried, CloseDeleted, kind == Packaged);
    var ident := IdentityAlert(doc);
    rows, tried := Consider(words, doc, kind, rows, tried, AckStale, Named(doc, "FIM-AIDE-STALE") && !ident);
  }

  method NetworkRows(words: Rule -> Words, doc: Doc, ghost kind: Deleted, before: seq<Row>, ghost first: seq<Rule>)
    returns (rows: seq<Row>, ghost tried: seq<Rule>)
    requires before == TableRows(words, WantedAmong(doc, kind, first))
    ensures tried == first + [IsolateDst, TravelHarden, IsolateUndo]
    ensures rows == TableRows(words, WantedAmong(doc, kind, tried))
  {
    var p := doc.protocol;
    rows, tried := Consider(words, doc, kind, before, first, IsolateDst, AtHome(p));
    rows, tried := Consider(words, doc, kind, rows, tried, TravelHarden, !AtHome(p) && (Roaming(p) || p.isolatable));
    rows, tried := Consider(words, doc, kind, rows, tried, IsolateUndo, p.rollback);
  }

  method NoticeRows(words: Rule -> Words, doc: Doc, ghost kind: Deleted, before: seq<Row>, ghost first: seq<Rule>)
    returns (rows: seq<Row>, ghost tried: seq<Rule>)
    requires before == TableRows(words, WantedAmong(doc, kind, first))
    ensures tried == first + [HelperPty, SuricataSeen, RuntimeApt]
    ensures rows == TableRows(words, WantedAmong(doc, kind, tried))
  {
    rows, tried := Consider(words, doc, kind, before, first, HelperPty, Named(doc, "HELPER-STALE"));
    rows, tried := Consider(words, doc, kind, rows, tried, SuricataSeen, SuricataRaised(doc));
    rows, tried := Consider(words, doc, kind, rows, tried, RuntimeApt, Named(doc, "HOST-RUNTIME"));
  }

  method ActionsFromVerdict(exes: string -> seq<string>, words: Rule -> Words, doc: Doc)
    returns (rows: seq<Row>)
    ensures rows == TableRows(words, Rules(doc, KindOf(exes, doc.findings)))
  {
    var kind := DeletedKind(exes, doc.findings);
    ghost var tried: seq<Rule>;
    rows, tried := HostRows(words, doc, kind);
    rows, tried := NetworkRows(words, doc, kind, rows, tried);
    rows, tried := NoticeRows(words, doc, kind, rows, tried);
    assert tried == TABLE;
    if rows == [] {
      rows := [RuleRow(words, Close)];
    }
  }

  // ----- Rewriting rows

  /** The row a pick means: by id, else by run; `|rows|` when there is none. */
  function Target(rows: seq<Row>, id: Option<string>, run: Option<string>): (k: nat)
    ensures k <= |rows|
  {
    var byId := if id.Some? && id.value != "" then FirstIndex((r: Row) => r.id == id.value, rows) else |rows|;
    if byId < |rows| || run.None? then byId else FirstIndex((r: Row) => r.run == run, rows)
  }

  predicate HasRun(rows: seq<Row>, run: Option<string>) {
    exists k :: 0 <= k < |rows| && rows[k].run == run
  }

  function RunIn(p: Pick): Option<string> {
    if p.run == Some("") then None else p.run
  }

  predicate Nonblank(s: Option<string>) {
    s.Some? && Strip(s.value) != ""
  }

  function First(rows: seq<Row>, k: nat, chosen: Row): seq<Row>
    requires k < |rows|
  {
    [chosen] + rows[..k] + rows[k + 1..]
  }

  /** `port_actions`: rewrite one row's why and move it first. */
  function Ported(oneLine: string -> string, rows: seq<Row>, p: Pick): seq<Row> {
    var run := RunIn(p);
    if run.Some? && !HasRun(rows, run) then rows else
      var k := Target(rows, p.id, run);
      if k == |rows| then rows else
        First(rows, k, if Nonblank(p.why) then rows[k].(why := oneLine(p.why.value)) else rows[k])
  }

  function Rewritten(oneLine: string -> string, r: Row, p: Pick): Row {
    r.(why := if Nonblank(p.why) then oneLine(p.why.value) else r.why,
       text := if Nonblank(p.text) then p.text else r.text,
       title := if Nonblank(p.title) then p.title.value else r.title)
  }

  /** One pick of `signal_port`. */
  function Signalled(oneLine: string -> string, rows: seq<Row>, p: Pick): seq<Row> {
    var run := RunIn(p);
    if run.Some? && (run.value !in CONFIRM_RUNS || !HasRun(rows, run)) then rows else
      var k := Target(rows, p.id, run);
      if k < |rows| then
        if p.first then First(rows, k, Rewritten(oneLine, rows[k], p)) else rows[k := Rewritten(oneLine, rows[k], p)]
      else if run.None? && p.id.Some? && p.id.value in TEXT_ROW_IDS then rows + [TextRow(oneLine, p, p.id.value)]
      else rows
  }

  function TextRow(oneLine: string -> string, p: Pick, id: string): Row {
    var title := if p.title.GetOr("") != "" then p.title.value else id;
    MakeRow(id, Words(title, oneLine(p.why.GetOr("")), if p.text.GetOr("") != "" then p.text else None), None)
  }

  function SignalledBy(oneLine: string -> string, rows: seq<Row>, picks: seq<Pick>): seq<Row> {
    if picks == [] then rows else
      Signalled(oneLine, SignalledBy(oneLine, rows, picks[..|picks| - 1]), picks[|picks| - 1])
  }

  /** The pick that a travel or tether network adds in front of all others. */
  function AutoPicks(words: Rule -> Words, p: Protocol): seq<Pick> {
    var w := words(TravelHarden);
    if Roaming(p) then [Pick(Some("travel-harden"), None, Some(w.why), w.text, None, true)] else []
  }

  method SignalPort(oneLine: string -> string, words: Rule -> Words, rows: seq<Row>, p: Protocol, picks: seq<Pick>)
    returns (out: seq<Row>)
    ensures out == SignalledBy(oneLine, rows, AutoPicks(words, p) + picks)
  {
    var all := AutoPicks(words, p) + picks;
    out := rows;
    for k := 0 to |all|
      invariant out == SignalledBy(oneLine, rows, all[..k])
    {
      Snoc(all, k);
      out := SignalOne(oneLine, out, all[k]);
    }
    Whole(all);
  }

  method Locate(rows: seq<Row>, id: Option<string>, run: Option<string>) returns (idx: nat)
    ensures idx == Target(rows, id, run)
  {
    if id.Some? && id.value != "" {
      for i := 0 to |rows|
        invariant forall j :: 0 <= j < i ==> rows[j].id != id.value
      {
        if rows[i].id == id.value {
          return i;
        }
      }
    }
    if run.Some? {
      for i := 0 to |rows|
        invariant forall j :: 0 <= j < i ==> rows[j].run != run
      {
        if rows[i].run == run {
          return i;
        }
      }
    }
    return |rows|;
  }

  method SignalOne(oneLine: string -> string, rows: seq<Row>, p: Pick) returns (out: seq<Row>)
    ensures out == Signalled(oneLine, rows, p)
  {
    var run := RunIn(p);
    if run.Some? && (run.value !in CONFIRM_RUNS || !HasRun(rows, run)) {
      return rows;
    }
    var idx := Locate(rows, p.id, run);
    if idx == |rows| {
      return if run.None? && p.id.Some? && p.id.value in TEXT_ROW_IDS
        then rows + [TextRow(oneLine, p, p.id.value)] else rows;
    }
    var chosen := rows[idx];
    if Nonblank(p.why) { chosen := chosen.(why := oneLine(p.why.value)); }
    if Nonblank(p.text) { chosen := chosen.(text := p.text); }
    if Nonblank(p.title) { chosen := chosen.(title := p.title.value); }
    return if p.first then [chosen] + rows[..idx] + rows[idx + 1..] else rows[idx := chosen];
  }

  method PortActions(oneLine: string -> string, rows: seq<Row>, p: Pick) returns (out: seq<Row>)
    ensures out == Ported(oneLine, rows, p)
  {
    var run := RunIn(p);
    if run.Some? && !HasRun(rows, run) {
      return rows;
    }
    var idx := Locate(rows, p.id, run);
    if idx == |rows| {
      return rows;
    }
    var chosen := rows[idx];
    if Nonblank(p.why) { chosen := chosen.(why := oneLine(p.why.value)); }
    return [chosen] + rows[..idx] + rows[idx + 1..];
  }

  // ----- What no pick can change

  /** The part of a row that acts. */
  datatype Core = Core(id: string, run: Option<string>, confirm: bool)

  function CoreOf(r: Row): Core { Core(r.id, r.run, r.confirm) }

  function Cores(rows: seq<Row>): seq<Core> { Map(CoreOf, rows) }

  function Ids(rows: seq<Row>): seq<string> { Map((r: Row) => r.id, rows) }

  /** What a pick may add. */
  predicate TextCore(c: Core) {
    c.run.None? && !c.confirm && c.id in TEXT_ROW_IDS
  }

  /** No core is lost, and only text rows are new. */
  ghost predicate Keeps(before: seq<Row>, after: seq<Row>) {
    forall c :: multiset(Cores(before))[c] <= multiset(Cores(after))[c]
      && (!TextCore(c) ==> multiset(Cores(before))[c] == multiset(Cores(after))[c])
  }

  lemma CoresUpdate(rows: seq<Row>, k: nat, r: Row)
    requires k < |rows| && CoreOf(r) == CoreOf(rows[k])
    ensures Cores(rows[k := r]) == Cores(rows) && Ids(rows[k := r]) == Ids(rows)
  {
  }

  lemma CoresFirst(rows: seq<Row>, k: nat, r: Row)
    requires k < |rows| && CoreOf(r) == CoreOf(rows[k])
    ensures multiset(Cores(First(rows, k, r))) == multiset(Cores(rows))
    ensures Distinct(Ids(rows)) ==> Distinct(Ids(First(rows, k, r)))
  {
    var a, x, b := Cores(rows[..k]), CoreOf(r), Cores(rows[k + 1..]);
    assert Cores(rows) == a + [x] + b;
    assert Cores(First(rows, k, r)) == [x] + a + b;
    if Distinct(Ids(rows)) {
      FirstKeepsDistinct(Ids(rows), k);
      assert Ids(First(rows, k, r)) == [Ids(rows)[k]] + Ids(rows)[..k] + Ids(rows)[k + 1..];
    }
  }

  lemma FirstKeepsDistinct(ids: seq<string>, k: nat)
    requires Distinct(ids) && k < |ids|
    ensures Distinct([ids[k]] + ids[..k] + ids[k + 1..])
  {
  }

  lemma SignalledKeeps(oneLine: string -> string, rows: seq<Row>, p: Pick)
    requires Distinct(Ids(rows))
    ensures Keeps(rows, Signalled(oneLine, rows, p)) && Distinct(Ids(Signalled(oneLine, rows, p)))
  {
    var out, k := Signalled(oneLine, rows, p), Target(rows, p.id, RunIn(p));
    if out != rows {
      if k < |rows| {
        CoresFirst(rows, k, Rewritten(oneLine, rows[k], p));
        CoresUpdate(rows, k, Rewritten(oneLine, rows[k], p));
      } else {
        AddedKeeps(rows, TextRow(oneLine, p, p.id.value));
      }
    }
  }

  lemma AddedKeeps(rows: seq<Row>, r: Row)
    requires Distinct(Ids(rows)) && TextCore(CoreOf(r)) && forall k :: 0 <= k < |rows| ==> rows[k].id != r.id
    ensures Keeps(rows, rows + [r]) && Distinct(Ids(rows + [r]))
  {
    assert Cores(rows + [r]) == Cores(rows) + [CoreOf(r)];
    assert Ids(rows + [r]) == Ids(rows) + [r.id];
    DistinctSnoc(Ids(rows), r.id);
  }

  lemma KeepsTwice(a: seq<Row>, b: seq<Row>, c: seq<Row>)
    requires Keeps(a, b) && Keeps(b, c)
    ensures Keeps(a, c)
  {
  }

  /** Any list of picks: ids stay distinct, acting rows keep (id, run, confirm), added rows are text only. */
  lemma {:induction false} PicksKeepActingRows(oneLine: string -> string, rows: seq<Row>, picks: seq<Pick>)
    requires Distinct(Ids(rows))
    ensures Keeps(rows, SignalledBy(oneLine, rows, picks)) && Distinct(Ids(SignalledBy(oneLine, rows, picks)))
  {
    if picks != [] {
      var init := picks[..|picks| - 1];
      PicksKeepActingRows(oneLine, rows, init);
      var before := SignalledBy(oneLine, rows, init);
      SignalledKeeps(oneLine, before, picks[|picks| - 1]);
      KeepsTwice(rows, before, SignalledBy(oneLine, rows, picks));
    }
  }

  /** One port only reorders the acting parts. */
  lemma PortOnlyReorders(oneLine: string -> string, rows: seq<Row>, p: Pick)
    ensures multiset(Cores(Ported(oneLine, rows, p))) == multiset(Cores(rows))
    ensures Distinct(Ids(rows)) ==> Distinct(Ids(Ported(oneLine, rows, p)))
  {
    var k := Target(rows, p.id, RunIn(p));
    if k < |rows| {
      CoresFirst(rows, k, if Nonblank(p.why) then rows[k].(why := oneLine(p.why.value)) else rows[k]);
    }
  }

  /** The rows with other ids. */
  function Others(rows: seq<Row>, id: string): seq<Row> {
    Filter((r: Row) => r.id != id, rows)
  }

  lemma OthersAround(a: seq<Row>, x: Row, b: seq<Row>)
    ensures Others(a + [x] + b, x.id) == Others(a, x.id) + Others(b, x.id)
    ensures Others([x] + a + b, x.id) == Others(a, x.id) + Others(b, x.id)
  {
    var p := (r: Row) => r.id != x.id;
    var none: seq<Row> := [];
    FilterSnoc(p, none, x);
    assert none + [x] == [x];
    FilterConcat(p, a + [x], b);
    FilterConcat(p, a, [x]);
    FilterConcat(p, [x] + a, b);
    FilterConcat(p, [x], a);
  }

  lemma OthersStay(rows: seq<Row>, k: nat, x: Row)
    requires k < |rows| && x.id == rows[k].id
    ensures Others(First(rows, k, x), x.id) == Others(rows, x.id)
    ensures Others(rows[k := x], x.id) == Others(rows, x.id)
  {
    var a, b := rows[..k], rows[k + 1..];
    OthersAround(a, x, b);
    OthersAround(a, rows[k], b);
    assert rows == a + [rows[k]] + b && rows[k := x] == a + [x] + b;
  }

  /** A pick or a port that finds its row leaves every other row as it is, in order; an accepted port
      puts its row first. */
  lemma PicksTouchOneRow(oneLine: string -> string, rows: seq<Row>, p: Pick)
    requires Target(rows, p.id, RunIn(p)) < |rows|
    ensures var id := rows[Target(rows, p.id, RunIn(p))].id;
      && Others(Signalled(oneLine, rows, p), id) == Others(rows, id)
      && Others(Ported(oneLine, rows, p), id) == Others(rows, id)
      && (RunIn(p).None? || HasRun(rows, RunIn(p)) ==> Ported(oneLine, rows, p)[0].id == id)
  {
    var k := Target(rows, p.id, RunIn(p));
    OthersStay(rows, k, Rewritten(oneLine, rows[k], p));
    OthersStay(rows, k, if Nonblank(p.why) then rows[k].(why := oneLine(p.why.value)) else rows[k]);
  }

  // ----- The whole sheet

  /** The pick that `_attach_actions` makes of a model's why and playbook. */
  function PlaybookPick(why: Option<string>, playbook: string): Pick {
    Pick(if playbook == "ask_operator" then Some("ask-operator") else None,
         if playbook in CONFIRM_RUNS then Some(playbook) else None,
         if Nonblank(why) then why else None, None, None, false)
  }

  /** Names and verbs tell rules apart. */
  lemma NamesAreDistinct(a: Rule, b: Rule)
    ensures Name(a) == Name(b) ==> a == b
    ensures RunOf(a).Some? && RunOf(a) == RunOf(b) ==> a == b
  {
  }

  lemma NamesOfDistinct(rules: seq<Rule>)
    requires Distinct(rules)
    ensures Distinct(Map(Name, rules))
  {
    forall i, j | 0 <= i < j < |rules| ensures Map(Name, rules)[i] != Map(Name, rules)[j] {
      NamesAreDistinct(rules[i], rules[j]);
    }
  }

  lemma RulesAre(doc: Doc, deleted: Deleted)
    ensures Distinct(Rules(doc, deleted))
    ensures forall rule :: rule in Rules(doc, deleted) && rule != Close ==> Wanted(doc, deleted, rule)
    ensures forall rule :: Wanted(doc, deleted, rule) ==> rule in Rules(doc, deleted)
  {
    var wanted := (rule: Rule) => Wanted(doc, deleted, rule);
    FilterKeepsDistinct(wanted, TABLE);
    FilterIn(wanted, TABLE);
    forall rule | rule != Close ensures rule in TABLE {
      var k := match rule case AskOperator => 0 case CloseDeleted => 1 case AckStale => 2 case IsolateDst => 3
                 case TravelHarden => 4 case IsolateUndo => 5 case HelperPty => 6 case SuricataSeen => 7 case _ => 8;
      assert TABLE[k] == rule;
    }
  }

  ghost predicate IsRuleRow(r: Row, rule: Rule) {
    r.id == Name(rule) && r.run == RunOf(rule) && r.confirm == r.run.Some?
  }

  /** The rule table's rows have distinct ids, and each stands for a wanted entry or closes the sheet. */
  lemma TableRowsAre(words: Rule -> Words, doc: Doc, deleted: Deleted)
    ensures Distinct(Ids(TableRows(words, Rules(doc, deleted))))
    ensures forall r :: r in TableRows(words, Rules(doc, deleted)) ==>
      exists rule :: IsRuleRow(r, rule) && (rule == Close || Wanted(doc, deleted, rule))
    ensures forall rule :: Wanted(doc, deleted, rule) ==>
      exists r :: r in TableRows(words, Rules(doc, deleted)) && IsRuleRow(r, rule)
  {
    var rules, rows := Rules(doc, deleted), TableRows(words, Rules(doc, deleted));
    RulesAre(doc, deleted);
    NamesOfDistinct(rules);
    assert Ids(rows) == Map(Name, rules);
    forall r | r in rows ensures exists rule :: IsRuleRow(r, rule) && (rule == Close || Wanted(doc, deleted, rule)) {
      var k :| 0 <= k < |rows| && rows[k] == r;
      RuleRowIs(words, rules[k]);
      assert rules[k] in rules;
    }
    forall rule | Wanted(doc, deleted, rule) ensures exists r :: r in rows && IsRuleRow(r, rule) {
      var k :| 0 <= k < |rules| && rules[k] == rule;
      RuleRowIs(words, rule);
      assert rows[k] in rows;
    }
  }

  lemma RuleRowIs(words: Rule -> Words, rule: Rule)
    ensures IsRuleRow(RuleRow(words, rule), rule)
  {
  }

  /** The sheet for any texts, any picks and any last pick. */
  function Sheet(oneLine: string -> string, words: Rule -> Words, doc: Doc, deleted: Deleted, picks: seq<Pick>,
                 last: Pick)
    : seq<Row>
  {
    var table := TableRows(words, Rules(doc, deleted));
    Ported(oneLine, SignalledBy(oneLine, table, AutoPicks(words, doc.protocol) + picks), last)
  }

  /** `_attach_actions`: the table, the network's own pick, and the model's. */
  method AttachActions(oneLine: string -> string, exes: string -> seq<string>, words: Rule -> Words, doc: Doc,
                       why: Option<string>, playbook: string)
    returns (rows: seq<Row>)
    ensures rows == Sheet(oneLine, words, doc, KindOf(exes, doc.findings), [], PlaybookPick(why, playbook))
    ensures Distinct(Ids(rows)) && (Offers(rows, "aide-init-ack-stale") ==> !IdentityAlert(doc))
  {
    rows := ActionsFromVerdict(exes, words, doc);
    rows := SignalPort(oneLine, words, rows, doc.protocol, []);
    rows := PortActions(oneLine, rows, PlaybookPick(why, playbook));
    ghost var kind := KindOf(exes, doc.findings);
    SheetIsSafe(oneLine, words, doc, kind, [], PlaybookPick(why, playbook));
    VerbsAreTheTables(oneLine, words, doc, kind, [], PlaybookPick(why, playbook), AckStale);
  }

  /** Whatever the model says: ids are distinct, the acting rows are exactly those the table wants, with
      their own run and confirmation, and every further row is text only or the table's. */
  lemma SheetIsSafe(oneLine: string -> string, words: Rule -> Words, doc: Doc, deleted: Deleted, picks: seq<Pick>,
                    last: Pick)
    ensures Distinct(Ids(Sheet(oneLine, words, doc, deleted, picks, last)))
    ensures Keeps(TableRows(words, Rules(doc, deleted)), Sheet(oneLine, words, doc, deleted, picks, last))
  {
    var rows := TableRows(words, Rules(doc, deleted));
    var all := AutoPicks(words, doc.protocol) + picks;
    TableRowsAre(words, doc, deleted);
    PicksKeepActingRows(oneLine, rows, all);
    PortOnlyReorders(oneLine, SignalledBy(oneLine, rows, all), last);
  }

  lemma ActingRowIsKept(before: seq<Row>, after: seq<Row>, r: Row)
    requires Keeps(before, after) && r in after && !TextCore(CoreOf(r))
    ensures exists b :: b in before && CoreOf(b) == CoreOf(r)
  {
    var j :| 0 <= j < |after| && after[j] == r;
    assert Cores(after)[j] == CoreOf(r);
    assert CoreOf(r) in multiset(Cores(after));
    assert multiset(Cores(before))[CoreOf(r)] == multiset(Cores(after))[CoreOf(r)];
    assert CoreOf(r) in Cores(before);
    var k :| 0 <= k < |Cores(before)| && Cores(before)[k] == CoreOf(r);
    assert before[k] in before;
  }

  lemma NeverLost(before: seq<Row>, after: seq<Row>, b: Row)
    requires Keeps(before, after) && b in before
    ensures exists r :: r in after && CoreOf(r) == CoreOf(b)
  {
    var j :| 0 <= j < |before| && before[j] == b;
    assert Cores(before)[j] == CoreOf(b);
    assert CoreOf(b) in multiset(Cores(before));
    assert multiset(Cores(before))[CoreOf(b)] <= multiset(Cores(after))[CoreOf(b)];
    assert CoreOf(b) in Cores(after);
    var k :| 0 <= k < |Cores(after)| && Cores(after)[k] == CoreOf(b);
    assert after[k] in after;
  }

  ghost predicate Offers(rows: seq<Row>, run: string) {
    exists r :: r in rows && r.run == Some(run)
  }

  /** A runnable verb is on the sheet exactly when the rule table wants its row, whatever the picks are. */
  lemma VerbsAreTheTables(oneLine: string -> string, words: Rule -> Words, doc: Doc, deleted: Deleted, picks: seq<Pick>,
                          last: Pick, rule: Rule)
    requires RunOf(rule).Some?
    ensures Offers(Sheet(oneLine, words, doc, deleted, picks, last), RunOf(rule).value) <==> Wanted(doc, deleted, rule)
  {
    var rows, sheet := TableRows(words, Rules(doc, deleted)), Sheet(oneLine, words, doc, deleted, picks, last);
    SheetIsSafe(oneLine, words, doc, deleted, picks, last);
    if Offers(sheet, RunOf(rule).value) {
      OfferedIsWanted(words, doc, deleted, sheet, rule);
    }
    if Wanted(doc, deleted, rule) {
      TableRowsAre(words, doc, deleted);
      var b :| b in rows && IsRuleRow(b, rule);
      NeverLost(rows, sheet, b);
    }
  }

  lemma OfferedIsWanted(words: Rule -> Words, doc: Doc, deleted: Deleted, sheet: seq<Row>, rule: Rule)
    requires Keeps(TableRows(words, Rules(doc, deleted)), sheet)
    requires RunOf(rule).Some? && Offers(sheet, RunOf(rule).value)
    ensures Wanted(doc, deleted, rule)
  {
    var rows := TableRows(words, Rules(doc, deleted));
    var r :| r in sheet && r.run == RunOf(rule);
    ActingRowIsKept(rows, sheet, r);
    var b :| b in rows && CoreOf(b) == CoreOf(r);
    TableRowsAre(words, doc, deleted);
    var own :| IsRuleRow(b, own) && (own == Close || Wanted(doc, deleted, own));
    NamesAreDistinct(rule, own);
  }

  lemma AckIsNoTextRow()
    ensures Name(AckStale) !in TEXT_ROW_IDS
  {
  }

  /** An identity ALERT ends with no ack-stale row and no such verb, whatever the model says. */
  lemma IdentityAlertBlocksAck(oneLine: string -> string, words: Rule -> Words, doc: Doc, deleted: Deleted,
                               picks: seq<Pick>, last: Pick)
    requires IdentityAlert(doc)
    ensures !Offers(Sheet(oneLine, words, doc, deleted, picks, last), "aide-init-ack-stale")
    ensures forall r :: r in Sheet(oneLine, words, doc, deleted, picks, last) ==> r.id != "ack-stale"
  {
    VerbsAreTheTables(oneLine, words, doc, deleted, picks, last, AckStale);
    var rows, sheet := TableRows(words, Rules(doc, deleted)), Sheet(oneLine, words, doc, deleted, picks, last);
    SheetIsSafe(oneLine, words, doc, deleted, picks, last);
    AckIsNoTextRow();
    forall r | r in sheet ensures r.id != Name(AckStale) {
      if !TextCore(CoreOf(r)) {
        TableRowsAre(words, doc, deleted);
        ActingRowIsKept(rows, sheet, r);
        var b :| b in rows && CoreOf(b) == CoreOf(r);
        var own :| IsRuleRow(b, own) && (own == Close || Wanted(doc, deleted, own));
        NamesAreDistinct(AckStale, own);
      }
    }
  }

  // ----- The sheet, spelled out

  /** The verbs on the sheet, and what runs them: for any texts, picks and last pick. */
  lemma SheetOffersExactly(oneLine: string -> string, words: Rule -> Words, doc: Doc, deleted: Deleted,
                           picks: seq<Pick>, last: Pick)
    ensures var sheet := Sheet(oneLine, words, doc, deleted, picks, last);
      && (Offers(sheet, "isolate-dst") <==> doc.protocol.isolatable && doc.protocol.envClass == "home")
      && (Offers(sheet, "isolate-undo") <==> doc.protocol.rollback)
      && (Offers(sheet, "aide-init-ack-stale") <==>
            (exists f :: f in doc.findings && f.id == "FIM-AIDE-STALE")
            && !exists f :: f in doc.findings && f.id == "FIM-AIDE" && Lower(f.severity) == "alert")
  {
    VerbsAreTheTables(oneLine, words, doc, deleted, picks, last, IsolateDst);
    VerbsAreTheTables(oneLine, words, doc, deleted, picks, last, IsolateUndo);
    VerbsAreTheTables(oneLine, words, doc, deleted, picks, last, AckStale);
    StaleIsNamed(doc);
  }

  lemma StaleIsNamed(doc: Doc)
    ensures Named(doc, "FIM-AIDE-STALE") <==> exists f :: f in doc.findings && f.id == "FIM-AIDE-STALE"
    ensures IdentityAlert(doc)
      <==> exists f :: f in doc.findings && f.id == "FIM-AIDE" && Lower(f.severity) == "alert"
  {
    if f :| f in doc.findings && f.id == "FIM-AIDE-STALE" {
      var k :| 0 <= k < |doc.findings| && doc.findings[k] == f;
    }
    if f :| f in doc.findings && f.id == "FIM-AIDE" && Lower(f.severity) == "alert" {
      var k :| 0 <= k < |doc.findings| && doc.findings[k] == f;
    }
  }

  /** The verb of a row, by its id. */
  function VerbOf(id: string): Option<string> {
    if id == "ack-stale" then Some("aide-init-ack-stale")
    else if id == "isolate-dst" || id == "isolate-undo" then Some(id) else None
  }

  lemma RuleRowsRun(rule: Rule)
    ensures RunOf(rule) == VerbOf(Name(rule))
  {
  }

  lemma TextIdsRunNothing(id: string)
    requires id in TEXT_ROW_IDS
    ensures VerbOf(id) == None
  {
  }

  /** Each row of the sheet runs what its id says, and asks for confirmation exactly when it runs something. */
  lemma RowsRunTheirVerb(oneLine: string -> string, words: Rule -> Words, doc: Doc, deleted: Deleted,
                         picks: seq<Pick>, last: Pick, r: Row)
    requires r in Sheet(oneLine, words, doc, deleted, picks, last)
    ensures r.run == VerbOf(r.id) && r.confirm == r.run.Some?
  {
    if TextCore(CoreOf(r)) {
      TextIdsRunNothing(r.id);
    } else {
      var rows := TableRows(words, Rules(doc, deleted));
      SheetIsSafe(oneLine, words, doc, deleted, picks, last);
      ActingRowIsKept(rows, Sheet(oneLine, words, doc, deleted, picks, last), r);
      var b :| b in rows && CoreOf(b) == CoreOf(r);
      TableRowsAre(words, doc, deleted);
      var own :| IsRuleRow(b, own) && (own == Close || Wanted(doc, deleted, own));
      RuleRowsRun(own);
    }
  }

  /** Which table rows there are, by id. */
  ghost predicate OnSheet(rows: seq<Row>, id: string) {
    exists r :: r in rows && r.id == id
  }

  lemma RuleIsOnSheet(words: Rule -> Words, doc: Doc, deleted: Deleted, rule: Rule)
    requires rule != Close
    ensures OnSheet(TableRows(words, Rules(doc, deleted)), Name(rule)) <==> Wanted(doc, deleted, rule)
  {
    TableRowsAre(words, doc, deleted);
    if r :| r in TableRows(words, Rules(doc, deleted)) && r.id == Name(rule) {
      var own :| IsRuleRow(r, own) && (own == Close || Wanted(doc, deleted, own));
      NamesAreDistinct(own, rule);
    }
  }

  /** The rule table: each row is there exactly on its condition. */
  lemma TableSaysExactly(words: Rule -> Words, doc: Doc, deleted: Deleted)
    ensures var (rows, p) := (TableRows(words, Rules(doc, deleted)), doc.protocol);
      && (OnSheet(rows, "ask-operator") <==> deleted == Unknown)
      && (OnSheet(rows, "close-deleted-dpkg") <==> deleted == Packaged)
      && (OnSheet(rows, "isolate-dst") <==> p.isolatable && p.envClass == "home")
      && (OnSheet(rows, "travel-harden") <==>
            p.envClass == "travel" || p.envClass == "tether" || (p.isolatable && p.envClass != "home"))
      && (OnSheet(rows, "isolate-undo") <==> p.rollback)
  {
    RuleIsOnSheet(words, doc, deleted, AskOperator);
    RuleIsOnSheet(words, doc, deleted, CloseDeleted);
    RuleIsOnSheet(words, doc, deleted, IsolateDst);
    RuleIsOnSheet(words, doc, deleted, TravelHarden);
    RuleIsOnSheet(words, doc, deleted, IsolateUndo);
  }

  lemma NoticesSayExactly(words: Rule -> Words, doc: Doc, deleted: Deleted)
    ensures var rows := TableRows(words, Rules(doc, deleted));
      && (OnSheet(rows, "helper-pty") <==> exists f :: f in doc.findings && f.id == "HELPER-STALE")
      && (OnSheet(rows, "runtime-apt") <==> exists f :: f in doc.findings && f.id == "HOST-RUNTIME")
      && (OnSheet(rows, "suricata-seen") <==>
            exists f :: f in doc.findings && f.id == "HOST-SURICATA" && Lower(f.severity) in {"warn", "alert"})
  {
    RuleIsOnSheet(words, doc, deleted, HelperPty);
    RuleIsOnSheet(words, doc, deleted, RuntimeApt);
    RuleIsOnSheet(words, doc, deleted, SuricataSeen);
    forall f | f in doc.findings ensures exists k :: 0 <= k < |doc.findings| && doc.findings[k] == f {
    }
  }

  /** The row a pick means: the first with its id if there is one, else the first with its verb. */
  lemma TargetIs(rows: seq<Row>, id: Option<string>, run: Option<string>, k: nat)
    requires k < |rows|
    ensures Target(rows, id, run) == k <==>
      if exists r :: r in rows && id == Some(r.id) && r.id != ""
      then id == Some(rows[k].id) && forall j :: 0 <= j < k ==> rows[j].id != rows[k].id
      else run.Some? && rows[k].run == run && forall j :: 0 <= j < k ==> rows[j].run != run
  {
    if r :| r in rows && id == Some(r.id) && r.id != "" {
      var j :| 0 <= j < |rows| && rows[j] == r;
    }
  }

  /** What a pick or a port makes of the row it finds, and where. */
  lemma ChosenRowIs(oneLine: string -> string, rows: seq<Row>, p: Pick, k: nat)
    requires k < |rows| && Target(rows, p.id, RunIn(p)) == k
    requires RunIn(p).None? || (RunIn(p).value in CONFIRM_RUNS && HasRun(rows, RunIn(p)))
    ensures var why := if p.why.Some? && Strip(p.why.value) != "" then oneLine(p.why.value) else rows[k].why;
      var text := if p.text.Some? && Strip(p.text.value) != "" then p.text else rows[k].text;
      var title := if p.title.Some? && Strip(p.title.value) != "" then p.title.value else rows[k].title;
      var row := rows[k].(why := why, text := text, title := title);
      && Signalled(oneLine, rows, p) == (if p.first then [row] + rows[..k] + rows[k + 1..] else rows[k := row])
      && Ported(oneLine, rows, p) == [rows[k].(why := why)] + rows[..k] + rows[k + 1..]
  {
  }

  /** What a pick that finds no row adds, and when picks and ports are dropped. */
  lemma UnplacedPickIs(oneLine: string -> string, rows: seq<Row>, p: Pick)
    requires Target(rows, p.id, RunIn(p)) == |rows|
    ensures Ported(oneLine, rows, p) == rows
    ensures var out := Signalled(oneLine, rows, p);
      if (p.run == None || p.run == Some("")) && p.id.Some? && p.id.value in TEXT_ROW_IDS
      then |out| == |rows| + 1 && out[..|rows|] == rows
           && out[|rows|].id == p.id.value && out[|rows|].run == None && !out[|rows|].confirm
      else out == rows
  {
  }

  lemma UnknownVerbIsDropped(oneLine: string -> string, rows: seq<Row>, p: Pick)
    requires RunIn(p).Some?
    ensures RunIn(p).value !in CONFIRM_RUNS ==> Signalled(oneLine, rows, p) == rows
    ensures (forall r :: r in rows ==> r.run != RunIn(p)) ==>
      Signalled(oneLine, rows, p) == rows && Ported(oneLine, rows, p) == rows
  {
  }

  lemma HardenComesFirst(oneLine: string -> string, rows: seq<Row>, p: Pick)
    requires OnSheet(rows, "travel-harden") && p.id == Some("travel-harden") && p.run == None && p.first
    ensures Signalled(oneLine, rows, p) != [] && Signalled(oneLine, rows, p)[0].id == "travel-harden"
  {
    var r :| r in rows && r.id == "travel-harden";
    var j :| 0 <= j < |rows| && rows[j] == r;
  }

  /** On a travel or tether network the advice to harden comes first, before the model's pick. */
  lemma RoamingComesFirst(oneLine: string -> string, words: Rule -> Words, doc: Doc, deleted: Deleted)
    requires doc.protocol.envClass == "travel" || doc.protocol.envClass == "tether"
    ensures var out := SignalledBy(oneLine, TableRows(words, Rules(doc, deleted)), AutoPicks(words, doc.protocol));
      out != [] && out[0].id == "travel-harden"
  {
    var rows := TableRows(words, Rules(doc, deleted));
    var auto := AutoPicks(words, doc.protocol);
    RuleIsOnSheet(words, doc, deleted, TravelHarden);
    HardenComesFirst(oneLine, rows, auto[0]);
    assert auto[..0] == [] && SignalledBy(oneLine, rows, auto[..0]) == rows;
  }

  /** Whether deleted executables are all package-owned, from the findings themselves. */
  lemma PackagedIff(exes: string -> seq<string>, findings: seq<Finding>)
    ensures KindOf(exes, findings) == NoneDeleted
      <==> forall f :: f in findings ==> f.id != "PROC-DELETED" && f.id != "PROC-MEMFD"
    ensures KindOf(exes, findings) == Packaged <==>
      && (exists f :: f in findings && f.id == "PROC-DELETED")
      && forall f :: f in findings && (f.id == "PROC-DELETED" || f.id == "PROC-MEMFD") ==>
           && f.id == "PROC-DELETED" && !Contains(f.detail, "memfd:") && exes(f.detail) != []
           && forall e :: e in exes(f.detail) ==> IsDpkgExe(e)
  {
    var hits := Filter(IsDeletion, findings);
    FilterIn(IsDeletion, findings);
    if hits != [] {
      FirstIsMember(hits);
    }
    forall f | f in findings && IsDeletion(f)
      ensures PackageOwned(exes, f) <==>
        f.id == "PROC-DELETED" && !Contains(f.detail, "memfd:") && exes(f.detail) != []
        && forall e :: e in exes(f.detail) ==> IsDpkgExe(e)
    {
      EachIsMember(exes(f.detail));
    }
  }

  lemma EachIsMember<T>(s: seq<T>)
    ensures forall k :: 0 <= k < |s| ==> s[k] in s
  {
  }

  /** Package-owned are the executables under the system's program directories, as the text begins. */
  lemma DpkgExeIff(path: string)
    ensures var p := Strip(path);
      IsDpkgExe(path) <==>
        && !Contains(p, "memfd:")
        && ("/usr/bin/" <= p || "/usr/sbin/" <= p || "/usr/lib/" <= p || "/usr/libexec/" <= p || "/bin/" <= p
            || "/sbin/" <= p || "/lib/" <= p || "/lib64/" <= p)
        && !("/tmp/" <= p || "/var/tmp/" <= p || "/dev/shm/" <= p || "/home/" <= p || "/root/" <= p
             || "/run/" <= p || "/opt/" <= p || "memfd:" <= p)
  {
    var p := Strip(path);
    assert DPKG_PREFIXES[0] == "/usr/bin/" && DPKG_PREFIXES[1] == "/usr/sbin/" && DPKG_PREFIXES[2] == "/usr/lib/";
    assert DPKG_PREFIXES[3] == "/usr/libexec/" && DPKG_PREFIXES[4] == "/bin/" && DPKG_PREFIXES[5] == "/sbin/";
    assert DPKG_PREFIXES[6] == "/lib/" && DPKG_PREFIXES[7] == "/lib64/";
    assert UNPACKAGED_PREFIXES[0] == "/tmp/" && UNPACKAGED_PREFIXES[1] == "/var/tmp/";
    assert UNPACKAGED_PREFIXES[2] == "/dev/shm/" && UNPACKAGED_PREFIXES[3] == "/home/";
    assert UNPACKAGED_PREFIXES[4] == "/root/" && UNPACKAGED_PREFIXES[5] == "/run/";
    assert UNPACKAGED_PREFIXES[6] == "/opt/" && UNPACKAGED_PREFIXES[7] == "memfd:";
  }

  lemma VerbComesFirst(oneLine: string -> string, rows: seq<Row>, p: Pick, run: string)
    requires p.run == Some(run) && run != "" && p.id == None && Offers(rows, run)
    ensures Ported(oneLine, rows, p) != [] && Ported(oneLine, rows, p)[0].run == Some(run)
  {
    var r :| r in rows && r.run == Some(run);
    var j :| 0 <= j < |rows| && rows[j] == r;
    assert HasRun(rows, Some(run));
  }

  lemma IdComesFirst(oneLine: string -> string, rows: seq<Row>, p: Pick, id: string)
    requires p.run == None && p.id == Some(id) && id != "" && OnSheet(rows, id)
    ensures Ported(oneLine, rows, p) != [] && Ported(oneLine, rows, p)[0].id == id
  {
    var r :| r in rows && r.id == id;
    var j :| 0 <= j < |rows| && rows[j] == r;
  }

  /** The playbook that the model names comes first, if the sheet offers it; `ask_operator` brings its own row to the
      front; any other word moves nothing. */
  lemma PlaybookComesFirst(oneLine: string -> string, words: Rule -> Words, doc: Doc, deleted: Deleted,
                           why: Option<string>, playbook: string)
    ensures var table := TableRows(words, Rules(doc, deleted));
      var (rows, sheet) := (SignalledBy(oneLine, table, AutoPicks(words, doc.protocol) + []),
                            Sheet(oneLine, words, doc, deleted, [], PlaybookPick(why, playbook)));
      && (playbook in {"aide-init-ack-stale", "isolate-dst", "isolate-undo"} && Offers(rows, playbook) ==>
            sheet != [] && sheet[0].run == Some(playbook))
      && (playbook == "ask_operator" && OnSheet(rows, "ask-operator") ==> sheet != [] && sheet[0].id == "ask-operator")
      && (playbook !in {"aide-init-ack-stale", "isolate-dst", "isolate-undo", "ask_operator"} ==> sheet == rows)
  {
    var rows := SignalledBy(oneLine, TableRows(words, Rules(doc, deleted)), AutoPicks(words, doc.protocol) + []);
    var p := PlaybookPick(why, playbook);
    if playbook in CONFIRM_RUNS {
      if Offers(rows, playbook) {
        VerbComesFirst(oneLine, rows, p, playbook);
      }
    } else if playbook == "ask_operator" {
      if OnSheet(rows, "ask-operator") {
        IdComesFirst(oneLine, rows, p, "ask-operator");
      }
    }
  }
}
