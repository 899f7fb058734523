/** Counting alert lines: `aggregate` of `scripts/lib/suricata_eve.py` and `scripts/lib/falco_burst.py`. */
module AlertCounts {
  import opened Lists
  import opened Sorting

  /** The records of the lines that parse, in line order. */
  function Parsed<K>(parse: string -> Option<K>, lines: seq<string>): seq<K> {
    if lines == [] then [] else
      var rec := parse(lines[|lines| - 1]);
      Parsed(parse, lines[..|lines| - 1]) + if rec.Some? then [rec.value] else []
  }

  /** Greatest count first, then the record. */
  function RowOrder<K(==)>(le: (K, K) -> bool): ((int, K), (int, K)) -> bool {
    Then((a: int, b: int) => b <= a, le)
  }

  lemma RowOrderIsTotal<K(!new)>(le: (K, K) -> bool)
    requires TotalOrder(le)
    ensures TotalOrder(RowOrder(le))
  {
    ThenIsTotal((a: int, b: int) => b <= a, le);
  }

  /** More frequent rows first; the record breaks ties. */
  lemma RowOrderIs<K>(le: (K, K) -> bool, a: (int, K), b: (int, K))
    ensures RowOrder(le)(a, b) <==> a.0 > b.0 || (a.0 == b.0 && le(a.1, b.1))
  {
    ThenIs((x: int, y: int) => y <= x, le, a, b);
  }

  function RowsWith<K(==)>(k: K, rows: seq<(int, K)>): nat {
    Count((row: (int, K)) => row.1 == k, rows)
  }

  ghost predicate RightCounts<K>(rows: seq<(int, K)>, recs: seq<K>) {
    forall row :: row in rows ==> row.0 == Times(row.1, recs)
  }

  /** One row for each record that occurs and no other row, each with the exact count. */
  ghost predicate Counts<K(!new)>(rows: seq<(int, K)>, recs: seq<K>) {
    (forall k :: RowsWith(k, rows) == if k in recs then 1 else 0) && RightCounts(rows, recs)
  }

  ghost predicate Tallies<K(!new)>(counts: map<K, nat>, keys: seq<K>, recs: seq<K>) {
    && Distinct(keys)
    && (forall k :: k in keys <==> k in counts)
    && (forall k :: k in counts <==> k in recs)
    && (forall k :: k in counts ==> counts[k] == Times(k, recs))
  }

  method Bump<K(==,!new)>(counts: map<K, nat>, keys: seq<K>, k: K, ghost recs: seq<K>)
    returns (more: map<K, nat>, grown: seq<K>)
    requires Tallies(counts, keys, recs)
    ensures Tallies(more, grown, recs + [k])
  {
    assert (recs + [k])[..|recs + [k]| - 1] == recs;
    TimesIsMultiplicity(k, recs);
    more := counts[k := (if k in counts then counts[k] else 0) + 1];
    grown := if k in counts then keys else keys + [k];
  }

  /** The counter's loop. */
  method CountLines<K(==,!new)>(parse: string -> Option<K>, lines: seq<string>) returns (counts: map<K, nat>,
                      keys: seq<K>)
    ensures Tallies(counts, keys, Parsed(parse, lines))
  {
    counts, keys := map[], [];
    for i := 0 to |lines|
      invariant Tallies(counts, keys, Parsed(parse, lines[..i]))
    {
      Snoc(lines, i);
      var rec := parse(lines[i]);
      if rec.Some? {
        counts, keys := Bump(counts, keys, rec.value, Parsed(parse, lines[..i]));
      } else {
        assert Parsed(parse, lines[..i]) + [] == Parsed(parse, lines[..i]);
      }
    }
    Whole(lines);
  }

  method RowsOf<K(==,!new)>(counts: map<K, nat>, keys: seq<K>, ghost recs: seq<K>) returns (rows: seq<(int, K)>)
    requires Tallies(counts, keys, recs)
    ensures Counts(rows, recs)
  {
    rows := [];
    for i := 0 to |keys|
      invariant forall k :: RowsWith(k, rows) == if k in keys[..i] then 1 else 0
      invariant RightCounts(rows, recs)
    {
      Snoc(keys, i);
      assert keys[i] in keys;
      var row := (counts[keys[i]] as int, keys[i]);
      assert forall k :: RowsWith(k, rows + [row]) == RowsWith(k, rows) + if row.1 == k then 1 else 0 by {
        assert (rows + [row])[..|rows + [row]| - 1] == rows;
      }
      rows := rows + [row];
    }
    Whole(keys);
  }

  method Aggregate<K(==,!new)>(le: (K, K) -> bool, parse: string -> Option<K>, lines: seq<string>)
    returns (rows: seq<(int, K)>)
    requires TotalOrder(le)
    ensures Counts(rows, Parsed(parse, lines)) && Ascending(RowOrder(le), rows)
  {
    var counts, keys := CountLines(parse, lines);
    var unsorted := RowsOf(counts, keys, Parsed(parse, lines));
    rows := Sort(RowOrder(le), unsorted);
    RowOrderIsTotal(le);
    SortSorts(RowOrder(le), unsorted);
    CountsOfPermutation(unsorted, rows, Parsed(parse, lines));
  }

  lemma CountsOfPermutation<K(!new)>(rows: seq<(int, K)>, sorted: seq<(int, K)>, recs: seq<K>)
    requires Counts(rows, recs) && multiset(rows) == multiset(sorted)
    ensures Counts(sorted, recs)
  {
    SameElements(rows, sorted);
    forall k ensures RowsWith(k, sorted) == RowsWith(k, rows) {
      CountOfPermutation((row: (int, K)) => row.1 == k, rows, sorted);
    }
  }

  // ----- The order of the lines does not matter

  lemma {:induction false} RowsWithHas<K(!new)>(k: K, rows: seq<(int, K)>)
    ensures RowsWith(k, rows) > 0 <==> exists row: (int, K) :: row in rows && row.1 == k
    ensures forall row: (int, K) :: row.1 == k ==> multiset(rows)[row] <= RowsWith(k, rows)
  {
    if rows != [] {
      var init, last := rows[..|rows| - 1], rows[|rows| - 1];
      assert rows == init + [last];
      RowsWithHas(k, init);
      assert last in rows;
      if row :| row in init && row.1 == k {
        assert row in rows;
      }
    }
  }

  lemma EachRowOnce<K(!new)>(rows: seq<(int, K)>, recs: seq<K>, row: (int, K))
    requires Counts(rows, recs)
    ensures multiset(rows)[row] == if row.1 in recs && row.0 == Times(row.1, recs) then 1 else 0
  {
    RowsWithHas(row.1, rows);
    assert RowsWith(row.1, rows) == if row.1 in recs then 1 else 0;
    if row.1 in recs {
      var r :| r in rows && r.1 == row.1;
      assert r in multiset(rows);
      if row.0 == Times(row.1, recs) {
        assert r == (r.0, r.1) && row == (row.0, row.1);
      } else {
        assert row !in rows;
      }
    }
  }

  lemma ParsedOfPermutation<K(!new)>(parse: string -> Option<K>, lines: seq<string>, other: seq<string>, k: K)
    requires multiset(lines) == multiset(other)
    ensures Times(k, Parsed(parse, lines)) == Times(k, Parsed(parse, other))
  {
    var says := (line: string) => parse(line) == Some(k);
    TimesIsCount(parse, lines, k);
    TimesIsCount(parse, other, k);
    CountOfPermutation(says, lines, other);
  }

  lemma {:induction false} TimesIsCount<K(!new)>(parse: string -> Option<K>, lines: seq<string>, k: K)
    ensures Times(k, Parsed(parse, lines)) == Count((line: string) => parse(line) == Some(k), lines)
  {
    if lines != [] {
      var init, rec := lines[..|lines| - 1], parse(lines[|lines| - 1]);
      TimesIsCount(parse, init, k);
      var before := Parsed(parse, init);
      if rec.Some? {
        assert (before + [rec.value])[..|before|] == before;
      } else {
        assert before + [] == before;
      }
    }
  }

  /** Every reordering of the lines gives the identical list of rows. */
  lemma OrderIsIrrelevant<K(!new)>(le: (K, K) -> bool, parse: string -> Option<K>,
                                   lines: seq<string>, rows: seq<(int, K)>, other: seq<string>, rows': seq<(int, K)>)
    requires TotalOrder(le) && multiset(lines) == multiset(other)
    requires Counts(rows, Parsed(parse, lines)) && Ascending(RowOrder(le), rows)
    requires Counts(rows', Parsed(parse, other)) && Ascending(RowOrder(le), rows')
    ensures rows == rows'
  {
    forall row ensures multiset(rows)[row] == multiset(rows')[row] {
      EachRowOnce(rows, Parsed(parse, lines), row);
      EachRowOnce(rows', Parsed(parse, other), row);
      ParsedOfPermutation(parse, lines, other, row.1);
      TimesIsMultiplicity(row.1, Parsed(parse, lines));
      TimesIsMultiplicity(row.1, Parsed(parse, other));
    }
    RowOrderIsTotal(le);
    AscendingIsUnique(RowOrder(le), rows, rows');
  }

  // ----- The counts sum to the parsed lines

  function SumN<K>(rows: seq<(int, K)>): int {
    if rows == [] then 0 else SumN(rows[..|rows| - 1]) + rows[|rows| - 1].0
  }

  function SumTimes<K(==)>(rows: seq<(int, K)>, recs: seq<K>): nat {
    if rows == [] then 0 else SumTimes(rows[..|rows| - 1], recs) + Times(rows[|rows| - 1].1, recs)
  }

  lemma {:induction false} SumTimesSnoc<K>(rows: seq<(int, K)>, recs: seq<K>, x: K)
    ensures SumTimes(rows, recs + [x]) == SumTimes(rows, recs) + RowsWith(x, rows)
  {
    if rows != [] {
      SumTimesSnoc(rows[..|rows| - 1], recs, x);
      assert (recs + [x])[..|recs + [x]| - 1] == recs;
    }
  }

  lemma {:induction false} SumTimesIsLength<K>(rows: seq<(int, K)>, recs: seq<K>)
    requires forall x :: x in recs ==> RowsWith(x, rows) == 1
    ensures SumTimes(rows, recs) == |recs|
  {
    if recs == [] {
      SumTimesOfNothing(rows);
    } else {
      var init, x := recs[..|recs| - 1], recs[|recs| - 1];
      assert recs == init + [x];
      SumTimesIsLength(rows, init);
      SumTimesSnoc(rows, init, x);
    }
  }

  lemma {:induction false} SumTimesOfNothing<K>(rows: seq<(int, K)>)
    ensures SumTimes(rows, []) == 0
  {
    if rows != [] {
      SumTimesOfNothing(rows[..|rows| - 1]);
    }
  }

  lemma {:induction false} SumNIsSumTimes<K>(rows: seq<(int, K)>, recs: seq<K>)
    requires RightCounts(rows, recs)
    ensures SumN(rows) == SumTimes(rows, recs)
  {
    if rows != [] {
      assert rows == rows[..|rows| - 1] + [rows[|rows| - 1]];
      SumNIsSumTimes(rows[..|rows| - 1], recs);
    }
  }

  /** The counts sum to the number of lines that parse. */
  lemma CountsSumToLines<K(!new)>(rows: seq<(int, K)>, recs: seq<K>)
    requires Counts(rows, recs)
    ensures SumN(rows) == |recs|
  {
    SumNIsSumTimes(rows, recs);
    SumTimesIsLength(rows, recs);
  }
}

/** The highest severity of each finding id, and the domains that lift an alert. */
module FindingIds {
  import opened Lists
  import opened Strings

  datatype Finding = Finding(id: string, severity: string)

  function Rank(severity: string): nat {
    if severity == "INFO" then 1 else if severity == "WARN" then 2 else if severity == "ALERT" then 3
    else if severity == "ERROR" then 4 else 0
  }

  function Get(ids: map<string, string>, id: string): string {
    if id in ids then ids[id] else ""
  }

  /** What the rows so far leave for one id: a row replaces what does not outrank it. */
  function Highest(findings: seq<Finding>, id: string): Option<string> {
    if findings == [] then None else
      var before, f := Highest(findings[..|findings| - 1], id), findings[|findings| - 1];
      if f.id == id && Rank(f.severity) >= Rank(before.GetOr("")) then Some(f.severity) else before
  }

  /** Rows without an id are skipped by the source; here every finding has one. */
  method FindingIds(findings: seq<Finding>) returns (ids: map<string, string>)
    ensures forall id :: id in ids <==> Highest(findings, id).Some?
    ensures forall id :: id in ids ==> ids[id] == Highest(findings, id).value
  {
    ids := map[];
    for k := 0 to |findings|
      invariant forall id :: id in ids <==> Highest(findings[..k], id).Some?
      invariant forall id :: id in ids ==> ids[id] == Highest(findings[..k], id).value
    {
      Snoc(findings, k);
      var f := findings[k];
      if Rank(f.severity) >= Rank(Get(ids, f.id)) {
        ids := ids[f.id := f.severity];
      }
    }
    Whole(findings);
  }

  ghost predicate Says(findings: seq<Finding>, id: string, severity: string) {
    Finding(id, severity) in findings
  }

  /** The per-id maximum: one of the id's severities, and none of them outranks it. */
  lemma {:induction false} HighestIsMaximum(findings: seq<Finding>, id: string)
    ensures Highest(findings, id).None? ==> forall s :: !Says(findings, id, s)
    ensures Highest(findings, id).Some? ==> Says(findings, id, Highest(findings, id).value)
    ensures forall s :: Says(findings, id, s) ==> Rank(s) <= Rank(Highest(findings, id).GetOr(""))
  {
    if findings != [] {
      var init, f := findings[..|findings| - 1], findings[|findings| - 1];
      assert findings == init + [f];
      HighestIsMaximum(init, id);
      forall s | Says(findings, id, s) ensures Says(init, id, s) || f == Finding(id, s) {
      }
      if Highest(init, id).Some? {
        assert Says(findings, id, Highest(init, id).value);
      }
      if f.id == id {
        assert Says(findings, id, f.severity);
      }
    }
  }

  predicate Lifts(severity: string) {
    severity == "WARN" || severity == "ALERT"
  }

  const FIM_DUAL := {"FIM-AIDE", "FIM-DEBSUMS", "PERS-PRELOAD"}
  const NET_DUAL := {"NET-LISTEN-EXT", "NET-ESTAB", "NET-NMAP", "NET-NMAP-SVC", "NET-SSH-UNIT", "NET-PROMISC",
    "PCAP-EXTRA", "PROC-TMPNET"}
  const NET_QUIET := {"NET-UFW-NOISE", "NET-UFW-SCAN", "NET-DNS"}

  predicate IsFim(id: string) {
    id in FIM_DUAL
  }

  predicate IsNet(id: string) {
    id in NET_DUAL || (StartsWith(id, "NET-") && id !in NET_QUIET)
  }

  /** The two domains by name. The network ids that are listed one by one would count by their prefix anyway. */
  lemma DomainsAre(id: string)
    ensures IsFim(id) <==> id == "FIM-AIDE" || id == "FIM-DEBSUMS" || id == "PERS-PRELOAD"
    ensures IsNet(id) <==>
      || id == "PCAP-EXTRA" || id == "PROC-TMPNET"
      || ("NET-" <= id && id != "NET-UFW-NOISE" && id != "NET-UFW-SCAN" && id != "NET-DNS")
  {
  }

  predicate IsEither(id: string) {
    IsFim(id) || IsNet(id)
  }

  /** Some id of the domain stands at WARN or ALERT. */
  predicate Raised(domain: string -> bool, ids: map<string, string>) {
    exists id :: id in ids && domain(id) && Lifts(ids[id])
  }

  function DualDomains(ids: map<string, string>): (bool, bool) {
    (Raised(IsFim, ids), Raised(IsNet, ids))
  }

  ghost predicate IdsOf(ids: map<string, string>, findings: seq<Finding>) {
    && (forall id :: id in ids <==> Highest(findings, id).Some?)
    && (forall id :: id in ids ==> ids[id] == Highest(findings, id).value)
  }

  ghost predicate Lifted(findings: seq<Finding>, id: string) {
    (Says(findings, id, "WARN") || Says(findings, id, "ALERT")) && !Says(findings, id, "ERROR")
  }

  lemma LiftsIffLifted(findings: seq<Finding>, id: string)
    ensures Highest(findings, id).Some? && Lifts(Highest(findings, id).value) <==> Lifted(findings, id)
  {
    HighestIsMaximum(findings, id);
  }

  /** Exactly when a domain is raised: one of its ids has a WARN or ALERT finding and no ERROR finding. */
  lemma RaisedIff(domain: string -> bool, findings: seq<Finding>, ids: map<string, string>)
    requires IdsOf(ids, findings)
    ensures Raised(domain, ids) <==> exists id :: domain(id) && Lifted(findings, id)
  {
    forall id ensures id in ids && Lifts(ids[id]) <==> Lifted(findings, id) {
      LiftsIffLifted(findings, id);
    }
  }

  /** Extra findings keep a domain raised unless an ERROR lands on every id that raises it. */
  lemma ExtraFindingsKeepRaised(domain: string -> bool, findings: seq<Finding>, ids: map<string, string>,
                                more: seq<Finding>, ids': map<string, string>)
    requires IdsOf(ids, findings) && IdsOf(ids', findings + more) && Raised(domain, ids)
    requires exists id :: domain(id) && Lifted(findings, id) && !Says(more, id, "ERROR")
    ensures Raised(domain, ids')
  {
    RaisedIff(domain, findings + more, ids');
    var id :| domain(id) && Lifted(findings, id) && !Says(more, id, "ERROR");
    assert Lifted(findings + more, id);
  }

  /** An extra ERROR does lower a domain: its rank is highest, yet it lifts nothing. */
  lemma ExtraErrorLowers()
    ensures var warn := [Finding("FIM-AIDE", "ALERT")];
      Lifted(warn, "FIM-AIDE") && forall id :: !Lifted(warn + [Finding("FIM-AIDE", "ERROR")], id)
  {
  }
}

/** The findings that Falco and Suricata rows give. */
module HostAlerts {
  import opened Lists
  import opened Sorting
  import opened Strings
  import opened FindingIds
  import AlertCounts

  type FalcoKey = (string, (string, string))               // rule, exe, event type
  type SuricataKey = (int, (string, (string, string)))     // sid, signature, protocol, exe

  method AggregateFalco(parse: string -> Option<FalcoKey>, lines: seq<string>) returns (rows: seq<(int, FalcoKey)>)
    ensures AlertCounts.Counts(rows, AlertCounts.Parsed(parse, lines))
    ensures Ascending(AlertCounts.RowOrder(FalcoOrder()), rows)
  {
    FalcoOrderIsTotal();
    rows := AlertCounts.Aggregate(FalcoOrder(), parse, lines);
  }

  function FalcoOrder(): (FalcoKey, FalcoKey) -> bool {
    Then(LexLe, Then(LexLe, LexLe))
  }

  /** The order of the tuples, part by part. */
  lemma TupleOrdersAre(a: FalcoKey, b: FalcoKey, m: int, n: int)
    ensures FalcoOrder()(a, b) <==>
      if a.0 != b.0 then LexLe(a.0, b.0) else if a.1.0 != b.1.0 then LexLe(a.1.0, b.1.0) else LexLe(a.1.1, b.1.1)
    ensures SuricataOrder()((m, a), (n, b)) <==> if m != n then m < n else FalcoOrder()(a, b)
  {
    ThenIs(LexLe, Then(LexLe, LexLe), a, b);
    ThenIs(LexLe, LexLe, a.1, b.1);
    ThenIs(IntLe, FalcoOrder(), (m, a), (n, b));
    LexLinear(a.0, a.0);
    LexLinear(a.1.0, a.1.0);
  }

  lemma FalcoOrderIsTotal()
    ensures TotalOrder(FalcoOrder())
  {
    LexIsTotal();
    ThenIsTotal(LexLe, LexLe);
    ThenIsTotal(LexLe, Then(LexLe, LexLe));
  }

  method AggregateSuricata(parse: string -> Option<SuricataKey>, lines: seq<string>) returns (rows: seq<(int,
                           SuricataKey)>)
    ensures AlertCounts.Counts(rows, AlertCounts.Parsed(parse, lines))
    ensures Ascending(AlertCounts.RowOrder(SuricataOrder()), rows)
  {
    SuricataOrderIsTotal();
    rows := AlertCounts.Aggregate(SuricataOrder(), parse, lines);
  }

  function SuricataOrder(): (SuricataKey, SuricataKey) -> bool {
    Then(IntLe, FalcoOrder())
  }

  lemma SuricataOrderIsTotal()
    ensures TotalOrder(SuricataOrder())
  {
    FalcoOrderIsTotal();
    IntIsTotal();
    ThenIsTotal(IntLe, FalcoOrder());
  }

  // ----- Severities

  datatype Harvest = Harvest(absent: bool, missing: bool, live: bool)
  datatype Row = Row(sid: int, exe: string)

  predicate IsDecoder(sid: int) {
    2_200_000 <= sid <= 2_299_999
  }

  /** Severity of the HOST-FALCO finding, if there is one. */
  function FalcoSeverity(h: Harvest, rows: nat, ids: map<string, string>): Option<string> {
    if h.absent || (h.missing && h.live) then Some("INFO")
    else if rows == 0 then None
    else if DualDomains(ids).0 || DualDomains(ids).1 then Some("ALERT") else Some("WARN")
  }

  /** A decoder flow matches the net domain or a raised Falco finding. */
  predicate IsFlow(id: string) {
    IsNet(id) || id == "HOST-FALCO"
  }

  predicate FlowMatch(rows: seq<Row>, ids: map<string, string>) {
    (exists k :: 0 <= k < |rows| && Strip(rows[k].exe) != "")
    && (DualDomains(ids).1 || ("HOST-FALCO" in ids && Lifts(ids["HOST-FALCO"])))
  }

  function SuricataSeverity(h: Harvest, rows: seq<Row>, ids: map<string, string>): Option<string> {
    if h.absent || (h.missing && h.live) then Some("INFO")
    else if rows == [] then None
    else if Filter((r: Row) => !IsDecoder(r.sid), rows) != []
    then Some(if DualDomains(ids).0 || DualDomains(ids).1 then "ALERT" else "WARN")
    else Some(if FlowMatch(Filter((r: Row) => IsDecoder(r.sid), rows), ids) then "ALERT" else "INFO")
  }

  ghost predicate NoError(more: seq<Finding>) {
    forall id :: !Says(more, id, "ERROR")
  }

  lemma RaisedEither(ids: map<string, string>)
    ensures DualDomains(ids).0 || DualDomains(ids).1 <==> Raised(IsEither, ids)
    ensures DualDomains(ids).1 || ("HOST-FALCO" in ids && Lifts(ids["HOST-FALCO"])) <==> Raised(IsFlow, ids)
  {
  }

  lemma NoErrorKeepsRaised(domain: string -> bool, findings: seq<Finding>, ids: map<string, string>,
                           more: seq<Finding>, ids': map<string, string>)
    requires IdsOf(ids, findings) && IdsOf(ids', findings + more) && NoError(more)
    ensures Raised(domain, ids) ==> Raised(domain, ids')
  {
    if Raised(domain, ids) {
      RaisedIff(domain, findings, ids);
      ExtraFindingsKeepRaised(domain, findings, ids, more, ids');
    }
  }

  /** With the rows fixed, extra findings that are no ERROR never lower either severity. */
  lemma ExtraFindingsNeverLower(h: Harvest, rows: seq<Row>, findings: seq<Finding>, ids: map<string, string>,
                                more: seq<Finding>, ids': map<string, string>)
    requires IdsOf(ids, findings) && IdsOf(ids', findings + more) && NoError(more)
    ensures Rank(FalcoSeverity(h, |rows|, ids).GetOr("")) <= Rank(FalcoSeverity(h, |rows|, ids').GetOr(""))
    ensures Rank(SuricataSeverity(h, rows, ids).GetOr("")) <= Rank(SuricataSeverity(h, rows, ids').GetOr(""))
  {
    RaisedEither(ids);
    RaisedEither(ids');
    NoErrorKeepsRaised(IsEither, findings, ids, more, ids');
    NoErrorKeepsRaised(IsFlow, findings, ids, more, ids');
  }

  /** ALERT exactly when rows are harvested and a fim or net id has a WARN or ALERT finding and no ERROR. */
  lemma FalcoAlertIff(h: Harvest, rows: nat, findings: seq<Finding>, ids: map<string, string>)
    requires IdsOf(ids, findings)
    ensures FalcoSeverity(h, rows, ids) == Some("ALERT")
      <==> !h.absent && !(h.missing && h.live) && rows > 0 && exists id :: IsEither(id) && Lifted(findings, id)
  {
    RaisedEither(ids);
    RaisedIff(IsEither, findings, ids);
  }

  ghost predicate DeservesAlert(rows: seq<Row>, findings: seq<Finding>) {
    if exists r :: r in rows && !IsDecoder(r.sid)
    then exists id :: IsEither(id) && Lifted(findings, id)
    else (exists r :: r in rows && Strip(r.exe) != "") && exists id :: IsFlow(id) && Lifted(findings, id)
  }

  /** Suricata: a signal row wants a raised domain; decoder rows alone want a named program and a
      raised net or Falco finding. */
  lemma SuricataAlertIff(h: Harvest, rows: seq<Row>, findings: seq<Finding>, ids: map<string, string>)
    requires IdsOf(ids, findings)
    ensures SuricataSeverity(h, rows, ids) == Some("ALERT")
      <==> !h.absent && !(h.missing && h.live) && DeservesAlert(rows, findings)
  {
    RaisedEither(ids);
    RaisedIff(IsEither, findings, ids);
    RaisedIff(IsFlow, findings, ids);
    var signal, decoder := Filter((r: Row) => !IsDecoder(r.sid), rows), Filter((r: Row) => IsDecoder(r.sid), rows);
    FilterIn((r: Row) => !IsDecoder(r.sid), rows);
    FilterIn((r: Row) => IsDecoder(r.sid), rows);
    if signal != [] {
      assert signal[0] in signal;
    } else {
      forall r | r in rows ensures r in decoder {
        assert r !in signal;
      }
      if r :| r in rows && Strip(r.exe) != "" {
        assert r in decoder;
      }
    }
  }

  /** Every severity of the two findings, in terms of the rows and the other findings. */
  lemma SeveritiesAre(h: Harvest, rows: seq<Row>, findings: seq<Finding>, ids: map<string, string>)
    requires IdsOf(ids, findings)
    ensures var (absent, raised) :=
        (h.absent || (h.missing && h.live), exists id :: IsEither(id) && Lifted(findings, id));
      && FalcoSeverity(h, |rows|, ids) == (
           if absent then Some("INFO") else if rows == [] then None else if raised then Some("ALERT") else Some("WARN"))
      && SuricataSeverity(h, rows, ids) == (
           if absent then Some("INFO") else if rows == [] then None
           else if DeservesAlert(rows, findings) then Some("ALERT")
           else if exists r :: r in rows && !(2200000 <= r.sid <= 2299999) then Some("WARN") else Some("INFO"))
  {
    FalcoAlertIff(h, |rows|, findings, ids);
    SuricataAlertIff(h, rows, findings, ids);
    var signal := Filter((r: Row) => !IsDecoder(r.sid), rows);
    FilterIn((r: Row) => !IsDecoder(r.sid), rows);
    if signal != [] {
      FirstIsMember(signal);
    }
  }
}
